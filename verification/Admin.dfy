/**
 Credentials at the administration boundary: they leave masked, and masks that come back unchanged
 are turned into the stored secrets again, whatever rows were moved or deleted in between.
 */
module Admin {
  import opened Wrappers
  import opened Core
  import opened Channel

  // ------------------------------------------------------------------ redaction

  function Mask(c: Credential): Credential {
    Credential(c.Masked())
  }

  function MaskEndpoint(ep: Endpoint): Endpoint {
    if ep.credential.Some? then ep.(credential := Some(Mask(ep.credential.value))) else ep
  }

  function MaskRows(rows: seq<Credential>): seq<Credential> {
    seq(|rows|, i requires 0 <= i < |rows| => Mask(rows[i]))
  }

  function MaskEndpoints(endpoints: seq<Endpoint>): seq<Endpoint> {
    seq(|endpoints|, i requires 0 <= i < |endpoints| => MaskEndpoint(endpoints[i]))
  }

  function Redacted(channel: Channel): Channel {
    channel.(credential := Mask(channel.credential),
             credentials := MaskRows(channel.credentials),
             endpoints := MaskEndpoints(channel.endpoints))
  }

  predicate LooksMasked(value: string) {
    ELLIPSIS in value || BULLET in value
  }

  /** What leaves shows masks in all three places and is otherwise the channel itself. */
  lemma RedactionShowsMasksOnly(channel: Channel, i: nat, j: nat)
    ensures var sent := Redacted(channel);
            && sent.credential.secret == channel.credential.Masked()
            && |sent.credentials| == |channel.credentials| && |sent.endpoints| == |channel.endpoints|
            && (i < |channel.credentials| ==> sent.credentials[i].secret == channel.credentials[i].Masked())
            && (j < |channel.endpoints| ==>
                  && sent.endpoints[j].(credential := None) == channel.endpoints[j].(credential := None)
                  && (sent.endpoints[j].credential.Some? <==> channel.endpoints[j].credential.Some?)
                  && (channel.endpoints[j].credential.Some? ==>
                        sent.endpoints[j].credential.value.secret == channel.endpoints[j].credential.value.Masked()))
            && sent.(credential := channel.credential, credentials := [], endpoints := [])
                 == channel.(credentials := [], endpoints := [])
  {
  }

  // ---------------------------------------------------------------- restoration

  /** The secrets a masked pool row may stand for; the default key may have been moved into the pool. */
  function Candidates(existing: Channel): seq<Credential> {
    (if existing.credential.IsEmpty() then [] else [existing.credential]) + existing.credentials
  }

  function FindMasked(candidates: seq<Credential>, masked: string): Option<Credential> {
    if candidates == [] then None
    else if candidates[0].Masked() == masked then Some(candidates[0])
    else FindMasked(candidates[1..], masked)
  }

  lemma {:induction false} FindMaskedFinds(candidates: seq<Credential>, masked: string)
    ensures var found := FindMasked(candidates, masked);
            if found.Some? then found.value in candidates && found.value.Masked() == masked
            else forall i :: 0 <= i < |candidates| ==> candidates[i].Masked() != masked
  {
    if candidates != [] && candidates[0].Masked() != masked {
      var others := candidates[1..];
      FindMaskedFinds(others, masked);
      forall i | 0 <= i < |candidates| && FindMasked(others, masked).None?
        ensures candidates[i].Masked() != masked
      {
        assert i > 0 ==> candidates[i] == others[i - 1];
      }
    }
  }

  function RestoredRow(candidates: seq<Credential>, row: Credential): Credential {
    if !LooksMasked(row.secret) then row
    else
      var found := FindMasked(candidates, row.secret);
      if found.Some? then found.value else row
  }

  function RestoredRows(candidates: seq<Credential>, rows: seq<Credential>): seq<Credential> {
    seq(|rows|, i requires 0 <= i < |rows| => RestoredRow(candidates, rows[i]))
  }

  /** The credential of the first stored endpoint that speaks the protocol. */
  function StoredCredential(endpoints: seq<Endpoint>, protocol: Protocol): Option<Credential> {
    if endpoints == [] then None
    else if endpoints[0].protocol == protocol then endpoints[0].credential
    else StoredCredential(endpoints[1..], protocol)
  }

  function RestoredEndpoint(stored: seq<Endpoint>, ep: Endpoint): Endpoint {
    var known := StoredCredential(stored, ep.protocol);
    if ep.credential.Some? && known.Some? && ep.credential.value.secret == known.value.Masked()
    then ep.(credential := known) else ep
  }

  function RestoredEndpoints(stored: seq<Endpoint>, endpoints: seq<Endpoint>): seq<Endpoint> {
    seq(|endpoints|, i requires 0 <= i < |endpoints| => RestoredEndpoint(stored, endpoints[i]))
  }

  function RestoredDefault(existing: Credential, incoming: Credential): Credential {
    if incoming.secret == existing.Masked() then existing else incoming
  }

  /** The credentials of a channel, overwritten in place on the way out and on the way back in. */
  class ChannelRecord {
    var credential: Credential
    var credentials: seq<Credential>
    var endpoints: seq<Endpoint>

    constructor (channel: Channel)
      ensures credential == channel.credential && credentials == channel.credentials && endpoints == channel.endpoints
    {
      credential := channel.credential;
      credentials := channel.credentials;
      endpoints := channel.endpoints;
    }

    /** What leaves for the administration client. */
    method Redact()
      modifies this
      ensures credential == Mask(old(credential))
      ensures credentials == MaskRows(old(credentials))
      ensures endpoints == MaskEndpoints(old(endpoints))
    {
      credential := Mask(credential);
      credentials := MaskRows(credentials);
      for i := 0 to |endpoints|
        invariant |endpoints| == |old(endpoints)|
        invariant forall k :: 0 <= k < i ==> endpoints[k] == MaskEndpoint(old(endpoints)[k])
        invariant forall k :: i <= k < |endpoints| ==> endpoints[k] == old(endpoints)[k]
        invariant credential == Mask(old(credential)) && credentials == MaskRows(old(credentials))
      {
        if endpoints[i].credential.Some? {
          endpoints := endpoints[i := endpoints[i].(credential := Some(Mask(endpoints[i].credential.value)))];
        }
      }
    }

    method RestoreUnchangedCredentials(existing: Channel)
      modifies this
      ensures credential == RestoredDefault(existing.credential, old(credential))
      ensures credentials == RestoredRows(Candidates(existing), old(credentials))
      ensures endpoints == RestoredEndpoints(existing.endpoints, old(endpoints))
    {
      if credential.secret == existing.credential.Masked() {
        credential := existing.credential;
      }
      var restoreFrom := [];
      if !existing.credential.IsEmpty() {
        restoreFrom := restoreFrom + [existing.credential];
      }
      restoreFrom := restoreFrom + existing.credentials;
      assert restoreFrom == Candidates(existing);
      RestoreRows(restoreFrom);
      RestoreEndpoints(existing.endpoints);
    }

    method RestoreRows(restoreFrom: seq<Credential>)
      modifies this`credentials
      ensures credentials == RestoredRows(restoreFrom, old(credentials))
    {
      ghost var restored := RestoredRows(restoreFrom, credentials);
      for i := 0 to |credentials|
        invariant |credentials| == |restored|
        invariant forall k :: 0 <= k < i ==> credentials[k] == restored[k]
        invariant forall k :: i <= k < |credentials| ==> credentials[k] == old(credentials)[k]
      {
        assert restored[i] == RestoredRow(restoreFrom, credentials[i]);
        var exposed := credentials[i].secret;
        if !LooksMasked(exposed) {
          continue;
        }
        var found := FindMasked(restoreFrom, exposed);
        if found.Some? {
          credentials := credentials[i := found.value];
        }
      }
    }

    method RestoreEndpoints(stored: seq<Endpoint>)
      modifies this`endpoints
      ensures endpoints == RestoredEndpoints(stored, old(endpoints))
    {
      ghost var restored := RestoredEndpoints(stored, endpoints);
      for i := 0 to |endpoints|
        invariant |endpoints| == |restored|
        invariant forall k :: 0 <= k < i ==> endpoints[k] == restored[k]
        invariant forall k :: i <= k < |endpoints| ==> endpoints[k] == old(endpoints)[k]
      {
        if endpoints[i].credential.None? {
          continue;
        }
        var known := StoredCredential(stored, endpoints[i].protocol);
        if known.None? {
          continue;
        }
        if endpoints[i].credential.value.secret == known.value.Masked() {
          endpoints := endpoints[i := endpoints[i].(credential := known)];
        }
      }
    }
  }

  datatype MaskedPlace = DefaultKey | KeyPool | EndpointKey(protocol: Protocol)

  /** Where a mask is left that nothing could be restored for. */
  function OffendingPlace(credential: Credential, credentials: seq<Credential>, endpoints: seq<Endpoint>)
    : Option<MaskedPlace>
  {
    if LooksMasked(credential.secret) then Some(DefaultKey)
    else if exists i :: 0 <= i < |credentials| && LooksMasked(credentials[i].secret) then Some(KeyPool)
    else FirstMaskedEndpoint(endpoints)
  }

  function FirstMaskedEndpoint(endpoints: seq<Endpoint>): (place: Option<MaskedPlace>)
    ensures place.None? <==> forall i :: 0 <= i < |endpoints| ==>
                               (endpoints[i].credential.Some? ==> !LooksMasked(endpoints[i].credential.value.secret))
  {
    if endpoints == [] then None
    else if endpoints[0].credential.Some? && LooksMasked(endpoints[0].credential.value.secret)
    then Some(EndpointKey(endpoints[0].protocol))
    else FirstMaskedEndpoint(endpoints[1..])
  }

  // ----------------------------------------------------------------- round trip

  /** The rows, or endpoints, of a list that a client kept, in its order. */
  function Pick<T>(all: seq<T>, order: seq<nat>): seq<T>
    requires forall i :: 0 <= i < |order| ==> order[i] < |all|
  {
    seq(|order|, i requires 0 <= i < |order| => all[order[i]])
  }

  predicate Within(order: seq<nat>, n: nat) {
    forall i :: 0 <= i < |order| ==> order[i] < n
  }

  lemma MaskIsNoticed(c: Credential)
    requires !c.IsEmpty()
    ensures LooksMasked(c.Masked())
  {
    var s := Trim(c.secret);
    if |s| <= 8 {
      assert c.Masked()[0] == BULLET;
    } else {
      assert c.Masked()[4] == ELLIPSIS;
    }
  }

  predicate NoEmptyRow(channel: Channel) {
    forall i :: 0 <= i < |channel.credentials| ==> !channel.credentials[i].IsEmpty()
  }

  /** Secrets that a row may stand for and that look the same are the same. */
  predicate MasksTellApart(existing: Channel) {
    forall i, j :: 0 <= i < |Candidates(existing)| && 0 <= j < |Candidates(existing)|
                   && Candidates(existing)[j].Masked() == Candidates(existing)[i].Masked()
      ==> Candidates(existing)[j] == Candidates(existing)[i]
  }

  /**
   The pool rows that a client sends back after deleting, duplicating and reordering masked rows,
   the default key's among them if it was moved into the pool.
   */
  function Returned(existing: Channel, order: seq<nat>): seq<Credential>
    requires Within(order, |Candidates(existing)|)
  {
    Pick(MaskRows(Candidates(existing)), order)
  }

  predicate RowsComeBack(existing: Channel, order: seq<nat>)
    requires Within(order, |Candidates(existing)|)
  {
    RestoredRows(Candidates(existing), Returned(existing, order)) == Pick(Candidates(existing), order)
  }

  /** A masked row becomes the first secret with its mask; there is one, the row's own at the latest. */
  lemma RowIsFirstMatch(existing: Channel, i: nat)
    requires NoEmptyRow(existing) && i < |Candidates(existing)|
    ensures var own := Candidates(existing)[i];
            FindMasked(Candidates(existing), own.Masked()) == Some(RestoredRow(Candidates(existing), Mask(own)))
  {
    var own := Candidates(existing)[i];
    MaskIsNoticed(own);
    FindMaskedFinds(Candidates(existing), own.Masked());
  }

  lemma RowsComeBackIfTold(existing: Channel, order: seq<nat>)
    requires NoEmptyRow(existing) && MasksTellApart(existing) && Within(order, |Candidates(existing)|)
    ensures RowsComeBack(existing, order)
  {
    var rows := Returned(existing, order);
    forall k | 0 <= k < |order|
      ensures RestoredRow(Candidates(existing), rows[k]) == Candidates(existing)[order[k]]
    {
      RowIsFirstMatch(existing, order[k]);
      FindMaskedFinds(Candidates(existing), Candidates(existing)[order[k]].Masked());
      var found := RestoredRow(Candidates(existing), rows[k]);
      var j :| 0 <= j < |Candidates(existing)| && Candidates(existing)[j] == found;
    }
  }

  ghost predicate RowsAlwaysComeBack(existing: Channel) {
    forall order: seq<nat> :: Within(order, |Candidates(existing)|) ==> RowsComeBack(existing, order)
  }

  /**
   Pool rows, and a default key moved among them, survive redaction and restoration under every
   reordering, duplication and deletion exactly when masks tell the stored secrets apart.
   */
  lemma RowsComeBackIffTold(existing: Channel)
    requires NoEmptyRow(existing)
    ensures RowsAlwaysComeBack(existing) <==> MasksTellApart(existing)
  {
    if MasksTellApart(existing) {
      forall order: seq<nat> | Within(order, |Candidates(existing)|)
        ensures RowsComeBack(existing, order)
      {
        RowsComeBackIfTold(existing, order);
      }
    }
    if RowsAlwaysComeBack(existing) {
      forall i, j | 0 <= i < |Candidates(existing)| && 0 <= j < |Candidates(existing)|
                    && Candidates(existing)[j].Masked() == Candidates(existing)[i].Masked()
        ensures Candidates(existing)[j] == Candidates(existing)[i]
      {
        SingleRowComesBack(existing, i);
        SingleRowComesBack(existing, j);
      }
    }
  }

  lemma SingleRowComesBack(existing: Channel, i: nat)
    requires NoEmptyRow(existing) && i < |Candidates(existing)| && RowsAlwaysComeBack(existing)
    ensures FindMasked(Candidates(existing), Candidates(existing)[i].Masked()) == Some(Candidates(existing)[i])
  {
    assert Within([i], |Candidates(existing)|);
    assert RowsComeBack(existing, [i]);
    assert RestoredRows(Candidates(existing), Returned(existing, [i]))[0] == Pick(Candidates(existing), [i])[0];
    RowIsFirstMatch(existing, i);
  }

  lemma {:induction false} StoredCredentialIs(endpoints: seq<Endpoint>, i: nat)
    requires UniqueProtocols(endpoints) && i < |endpoints|
    ensures StoredCredential(endpoints, endpoints[i].protocol) == endpoints[i].credential
  {
    if i > 0 {
      assert endpoints[0].protocol != endpoints[i].protocol;
      StoredCredentialIs(endpoints[1..], i - 1);
    }
  }

  /** A text with one of the two characters that only masks have, the ellipsis and the bullet. */
  predicate HasMaskCharacter(text: string) {
    exists i :: 0 <= i < |text| && (text[i] == '\U{2026}' || text[i] == '\U{2022}')
  }

  lemma LooksMaskedMeans(text: string)
    ensures LooksMasked(text) <==> HasMaskCharacter(text)
  {
  }

  predicate NoMaskCharacters(channel: Channel) {
    && !HasMaskCharacter(channel.credential.secret)
    && (forall i :: 0 <= i < |channel.credentials| ==> !HasMaskCharacter(channel.credentials[i].secret))
    && (forall i :: 0 <= i < |channel.endpoints| ==>
          (channel.endpoints[i].credential.Some? ==> !HasMaskCharacter(channel.endpoints[i].credential.value.secret)))
  }

  /**
   Redact, let the client keep any rows and endpoints in any order, move its default key into the
   pool as well if it likes, restore: all that was kept carries its real secret again, and the mask
   check accepts it.
   */
  lemma RedactThenRestore(existing: Channel, rowOrder: seq<nat>, endpointOrder: seq<nat>)
    requires NoEmptyRow(existing) && UniqueProtocols(existing.endpoints) && MasksTellApart(existing)
    requires Within(rowOrder, |Candidates(existing)|) && Within(endpointOrder, |existing.endpoints|)
    ensures var sent := Redacted(existing);
            var credential := RestoredDefault(existing.credential, sent.credential);
            var rows := RestoredRows(Candidates(existing), Returned(existing, rowOrder));
            var endpoints := RestoredEndpoints(existing.endpoints, Pick(sent.endpoints, endpointOrder));
            && credential == existing.credential
            && rows == Pick(Candidates(existing), rowOrder)
            && endpoints == Pick(existing.endpoints, endpointOrder)
            && (NoMaskCharacters(existing) ==> OffendingPlace(credential, rows, endpoints).None?)
  {
    RowsComeBackIfTold(existing, rowOrder);
    var sent := Pick(Redacted(existing).endpoints, endpointOrder);
    forall k | 0 <= k < |endpointOrder|
      ensures RestoredEndpoint(existing.endpoints, sent[k]) == existing.endpoints[endpointOrder[k]]
    {
      StoredCredentialIs(existing.endpoints, endpointOrder[k]);
    }
    assert RestoredEndpoints(existing.endpoints, sent) == Pick(existing.endpoints, endpointOrder);
  }

  // ----------------------------------------------------------------- acceptance

  /** The check accepts exactly the channels in which no secret has a mask character. */
  lemma CheckAcceptsRealSecrets(channel: Channel)
    ensures OffendingPlace(channel.credential, channel.credentials, channel.endpoints).None?
       <==> NoMaskCharacters(channel)
  {
    LooksMaskedMeans(channel.credential.secret);
    forall i | 0 <= i < |channel.credentials|
      ensures LooksMasked(channel.credentials[i].secret) <==> HasMaskCharacter(channel.credentials[i].secret)
    {
      LooksMaskedMeans(channel.credentials[i].secret);
    }
    forall i | 0 <= i < |channel.endpoints| && channel.endpoints[i].credential.Some?
      ensures LooksMasked(channel.endpoints[i].credential.value.secret)
         <==> HasMaskCharacter(channel.endpoints[i].credential.value.secret)
    {
      LooksMaskedMeans(channel.endpoints[i].credential.value.secret);
    }
  }

  /**
   The place that a refusal names is masked; the default key comes first, then the pool, then the
   endpoints in their order.
   */
  lemma RefusalNamesTheMask(channel: Channel, i: nat)
    ensures var place := OffendingPlace(channel.credential, channel.credentials, channel.endpoints);
            && (HasMaskCharacter(channel.credential.secret) ==> place == Some(DefaultKey))
            && (!HasMaskCharacter(channel.credential.secret) && i < |channel.credentials|
                && HasMaskCharacter(channel.credentials[i].secret) ==>
                  place == Some(KeyPool))
            && (place.Some? && place.value.EndpointKey? ==>
                  exists j :: 0 <= j < |channel.endpoints| && IsFirstMasked(channel.endpoints, j)
                              && channel.endpoints[j].protocol == place.value.protocol)
  {
    LooksMaskedMeans(channel.credential.secret);
    if i < |channel.credentials| {
      LooksMaskedMeans(channel.credentials[i].secret);
    }
    if FirstMaskedEndpoint(channel.endpoints).Some? {
      var j := FirstMaskedIs(channel.endpoints);
      assert IsFirstMasked(channel.endpoints, j);
    }
  }

  predicate IsMasked(ep: Endpoint) {
    ep.credential.Some? && HasMaskCharacter(ep.credential.value.secret)
  }

  predicate IsFirstMasked(endpoints: seq<Endpoint>, j: nat)
    requires j < |endpoints|
  {
    IsMasked(endpoints[j]) && forall i :: 0 <= i < j ==> !IsMasked(endpoints[i])
  }

  lemma {:induction false} FirstMaskedIs(endpoints: seq<Endpoint>) returns (j: nat)
    requires FirstMaskedEndpoint(endpoints).Some?
    ensures j < |endpoints| && IsFirstMasked(endpoints, j)
    ensures FirstMaskedEndpoint(endpoints) == Some(EndpointKey(endpoints[j].protocol))
  {
    j := 0;
    if endpoints[0].credential.Some? {
      LooksMaskedMeans(endpoints[0].credential.value.secret);
    }
    if !IsMasked(endpoints[0]) {
      var k := FirstMaskedIs(endpoints[1..]);
      j := k + 1;
      assert forall i :: 0 < i < |endpoints| ==> endpoints[i] == endpoints[1..][i - 1];
    }
  }

  /** A masked row is the default key if that has the mask, else the first pool row that has it, else it stays. */
  lemma MaskedRowPrefersDefault(existing: Channel, row: Credential, i: nat)
    requires HasMaskCharacter(row.secret) && i <= |existing.credentials|
    requires forall j :: 0 <= j < i ==> existing.credentials[j].Masked() != row.secret
    requires i < |existing.credentials| ==> existing.credentials[i].Masked() == row.secret
    ensures RestoredRow(Candidates(existing), row)
         == if !existing.credential.IsEmpty() && existing.credential.Masked() == row.secret then existing.credential
            else if i < |existing.credentials| then existing.credentials[i]
            else row
  {
    LooksMaskedMeans(row.secret);
    FirstInRows(existing.credentials, row.secret, i);
    if !existing.credential.IsEmpty() {
      assert Candidates(existing)[1..] == existing.credentials;
    } else {
      assert Candidates(existing) == existing.credentials;
    }
  }

  lemma {:induction false} FirstInRows(rows: seq<Credential>, masked: string, i: nat)
    requires i <= |rows| && forall j :: 0 <= j < i ==> rows[j].Masked() != masked
    requires i < |rows| ==> rows[i].Masked() == masked
    ensures FindMasked(rows, masked) == if i < |rows| then Some(rows[i]) else None
  {
    if i > 0 {
      FirstInRows(rows[1..], masked, i - 1);
    }
  }

  /** What a client enters is what is stored: a secret without mask characters is never replaced, none is made up. */
  lemma NewSecretsAreKept(existing: Channel, incoming: Channel, i: nat, j: nat)
    ensures var restored := RestoredChannel(existing, incoming);
            && |restored.credentials| == |incoming.credentials| && |restored.endpoints| == |incoming.endpoints|
            && (incoming.credential.secret != existing.credential.Masked() ==>
                  restored.credential == incoming.credential)
            && (i < |incoming.credentials| && !HasMaskCharacter(incoming.credentials[i].secret) ==>
                  restored.credentials[i] == incoming.credentials[i])
            && (j < |incoming.endpoints| ==>
                  && restored.endpoints[j].(credential := None) == incoming.endpoints[j].(credential := None)
                  && (incoming.endpoints[j].credential.None? ==> restored.endpoints[j].credential.None?)
                  && (incoming.endpoints[j].credential.Some?
                      && !EndpointHasOrigin(existing, incoming.endpoints[j]) ==>
                        restored.endpoints[j] == incoming.endpoints[j]))
  {
    if i < |incoming.credentials| {
      LooksMaskedMeans(incoming.credentials[i].secret);
    }
  }

  /** A masked row that stands for some stored secret. */
  predicate RowHasOrigin(existing: Channel, row: Credential) {
    exists j :: 0 <= j < |Candidates(existing)| && Candidates(existing)[j].Masked() == row.secret
  }

  /** A masked endpoint key whose protocol is still that of an endpoint with this mask. */
  predicate EndpointHasOrigin(existing: Channel, ep: Endpoint)
    requires ep.credential.Some?
  {
    var known := StoredCredential(existing.endpoints, ep.protocol);
    known.Some? && known.value.Masked() == ep.credential.value.secret
  }

  /** Every mask in an incoming channel, in any of the three places, is where its secret is stored. */
  predicate EveryMaskHasOrigin(existing: Channel, incoming: Channel) {
    && (HasMaskCharacter(incoming.credential.secret) ==> incoming.credential.secret == existing.credential.Masked())
    && (forall i :: 0 <= i < |incoming.credentials| && HasMaskCharacter(incoming.credentials[i].secret) ==>
          RowHasOrigin(existing, incoming.credentials[i]))
    && (forall i :: 0 <= i < |incoming.endpoints| && incoming.endpoints[i].credential.Some?
                    && HasMaskCharacter(incoming.endpoints[i].credential.value.secret) ==>
          EndpointHasOrigin(existing, incoming.endpoints[i]))
  }

  function RestoredChannel(existing: Channel, incoming: Channel): Channel {
    incoming.(credential := RestoredDefault(existing.credential, incoming.credential),
              credentials := RestoredRows(Candidates(existing), incoming.credentials),
              endpoints := RestoredEndpoints(existing.endpoints, incoming.endpoints))
  }

  predicate Accepted(channel: Channel) {
    OffendingPlace(channel.credential, channel.credentials, channel.endpoints).None?
  }

  lemma RowOriginIsFound(existing: Channel, row: Credential)
    ensures RowHasOrigin(existing, row) <==> FindMasked(Candidates(existing), row.secret).Some?
    ensures FindMasked(Candidates(existing), row.secret).Some? ==>
              FindMasked(Candidates(existing), row.secret).value in Candidates(existing)
  {
    FindMaskedFinds(Candidates(existing), row.secret);
    if FindMasked(Candidates(existing), row.secret).Some? {
      var found := FindMasked(Candidates(existing), row.secret).value;
      var j :| 0 <= j < |Candidates(existing)| && Candidates(existing)[j] == found;
    }
  }

  lemma {:induction false} StoredCredentialIsReal(endpoints: seq<Endpoint>, protocol: Protocol)
    requires forall i :: 0 <= i < |endpoints| ==>
               (endpoints[i].credential.Some? ==> !HasMaskCharacter(endpoints[i].credential.value.secret))
    ensures var known := StoredCredential(endpoints, protocol);
            known.Some? ==> !HasMaskCharacter(known.value.secret)
  {
    if endpoints != [] {
      StoredCredentialIsReal(endpoints[1..], protocol);
    }
  }

  lemma RestoredRowIsReal(existing: Channel, row: Credential)
    requires NoMaskCharacters(existing)
    ensures !HasMaskCharacter(RestoredRow(Candidates(existing), row).secret)
       <==> (HasMaskCharacter(row.secret) ==> RowHasOrigin(existing, row))
  {
    RowOriginIsFound(existing, row);
    LooksMaskedMeans(row.secret);
  }

  lemma RestoredEndpointIsReal(existing: Channel, ep: Endpoint)
    requires NoMaskCharacters(existing)
    ensures var restored := RestoredEndpoint(existing.endpoints, ep);
            (restored.credential.Some? ==> !HasMaskCharacter(restored.credential.value.secret))
            <==> (ep.credential.Some? && HasMaskCharacter(ep.credential.value.secret) ==>
                    EndpointHasOrigin(existing, ep))
  {
    StoredCredentialIsReal(existing.endpoints, ep.protocol);
  }

  /**
   An update is accepted exactly if every mask it brings, as default key, pool row or endpoint key,
   stands where the stored channel has a secret with that mask; in particular an endpoint key whose
   protocol was changed has to be entered anew.
   */
  lemma AcceptedIffMasksHaveOrigin(existing: Channel, incoming: Channel)
    requires NoMaskCharacters(existing)
    ensures Accepted(RestoredChannel(existing, incoming)) <==> EveryMaskHasOrigin(existing, incoming)
  {
    var restored := RestoredChannel(existing, incoming);
    CheckAcceptsRealSecrets(restored);
    forall i | 0 <= i < |incoming.credentials|
      ensures !HasMaskCharacter(restored.credentials[i].secret)
         <==> (HasMaskCharacter(incoming.credentials[i].secret) ==> RowHasOrigin(existing, incoming.credentials[i]))
    {
      RestoredRowIsReal(existing, incoming.credentials[i]);
    }
    forall i | 0 <= i < |incoming.endpoints|
      ensures (restored.endpoints[i].credential.Some? ==>
                 !HasMaskCharacter(restored.endpoints[i].credential.value.secret))
         <==> (incoming.endpoints[i].credential.Some?
               && HasMaskCharacter(incoming.endpoints[i].credential.value.secret) ==>
                 EndpointHasOrigin(existing, incoming.endpoints[i]))
    {
      RestoredEndpointIsReal(existing, incoming.endpoints[i]);
    }
  }

  /** A mask of unknown origin is left as it is, and then the check refuses, whatever is stored. */
  lemma UnknownMaskIsRefused(existing: Channel, incoming: Channel)
    requires !EveryMaskHasOrigin(existing, incoming)
    ensures !Accepted(RestoredChannel(existing, incoming))
  {
    var restored := RestoredChannel(existing, incoming);
    CheckAcceptsRealSecrets(restored);
    if i :| 0 <= i < |incoming.credentials| && HasMaskCharacter(incoming.credentials[i].secret)
            && !RowHasOrigin(existing, incoming.credentials[i])
    {
      RowOriginIsFound(existing, incoming.credentials[i]);
      LooksMaskedMeans(incoming.credentials[i].secret);
      assert restored.credentials[i] == incoming.credentials[i];
    } else if i :| 0 <= i < |incoming.endpoints| && incoming.endpoints[i].credential.Some?
                   && HasMaskCharacter(incoming.endpoints[i].credential.value.secret)
                   && !EndpointHasOrigin(existing, incoming.endpoints[i])
    {
      assert restored.endpoints[i] == incoming.endpoints[i];
    }
  }

  /** What is stored after an update: the restored channel if both checks accept it, the old one otherwise. */
  function Updated(existing: Channel, incoming: Channel): Channel {
    var restored := RestoredChannel(existing, incoming);
    if Accepted(restored) && WellFormed(restored) then restored else existing
  }

  function AfterUpdates(created: Channel, updates: seq<Channel>): Channel {
    if updates == [] then created
    else Updated(AfterUpdates(created, updates[..|updates| - 1]), updates[|updates| - 1])
  }

  /** Neither creating a channel nor any updates of it ever store a mask as a secret, or an ill-formed channel. */
  lemma {:induction false} MasksAreNeverStored(created: Channel, updates: seq<Channel>)
    requires Accepted(created) && WellFormed(created)
    ensures NoMaskCharacters(AfterUpdates(created, updates)) && WellFormed(AfterUpdates(created, updates))
  {
    if updates == [] {
      CheckAcceptsRealSecrets(created);
    } else {
      var existing := AfterUpdates(created, updates[..|updates| - 1]);
      MasksAreNeverStored(created, updates[..|updates| - 1]);
      CheckAcceptsRealSecrets(RestoredChannel(existing, updates[|updates| - 1]));
    }
  }
}
