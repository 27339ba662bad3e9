/** What the end of the stream makes of a last line without its line feed. */
module SseEndings {
  import opened Wrappers
  import opened Core
  import opened Utf8
  import opened Sse
  import opened SseProofs

  // ---------------------------------------------------------------- white space

  /** The scalar value of a white space character. */
  function SpaceOf(c: Bytes): (u: Scalar)
    requires IsWhitespaceChar(c)
  {
    if |c| == 1 then c[0]
    else if |c| == 2 then c[1]
    else if c[0] == 0xE1 then 0x1680
    else if c[0] == 0xE3 then 0x3000
    else if c[1] == 0x81 then 0x205F
    else 0x2000 + (c[2] as int - 0x80)
  }

  lemma SpaceIsWhite(c: Bytes)
    requires IsWhitespaceChar(c)
    ensures IsWhiteSpace(SpaceOf(c)) && Encode(SpaceOf(c)) == c
  {
  }

  lemma WhiteIsSpace(u: Scalar)
    requires IsWhiteSpace(u)
    ensures IsWhitespaceChar(Encode(u)) && |Encode(u)| <= 3
  {
  }

  /** The parser's white space is the Unicode characters of that kind, encoded. */
  lemma WhitespaceIsUnicode(c: Bytes)
    ensures IsWhitespaceChar(c) <==> exists u: Scalar :: IsWhiteSpace(u) && Encode(u) == c
  {
    if IsWhitespaceChar(c) {
      SpaceIsWhite(c);
    }
    if u: Scalar :| IsWhiteSpace(u) && Encode(u) == c {
      WhiteIsSpace(u);
    }
  }

  predicate AllWhite(us: seq<Scalar>) {
    forall i :: 0 <= i < |us| ==> IsWhiteSpace(us[i])
  }

  lemma {:induction false} EncodeAppend(us: seq<Scalar>, u: Scalar)
    ensures EncodeAll(us + [u]) == EncodeAll(us) + Encode(u)
  {
    if us == [] {
      EmptyConcat(Encode(u));
    } else {
      TailOfConcat(us, [u]);
      EncodeAppend(us[1..], u);
      ConcatAssoc(Encode(us[0]), EncodeAll(us[1..]), Encode(u));
    }
  }

  lemma LeadingIsWhite(s: Bytes) returns (u: Scalar)
    requires LeadingSpace(s) > 0
    ensures IsWhiteSpace(u) && Encode(u) == s[..LeadingSpace(s)]
  {
    SpaceIsWhite(s[..LeadingSpace(s)]);
    u := SpaceOf(s[..LeadingSpace(s)]);
  }

  lemma TrailingIsWhite(s: Bytes) returns (u: Scalar)
    requires TrailingSpace(s) > 0
    ensures IsWhiteSpace(u) && Encode(u) == s[|s| - TrailingSpace(s)..]
  {
    SpaceIsWhite(s[|s| - TrailingSpace(s)..]);
    u := SpaceOf(s[|s| - TrailingSpace(s)..]);
  }

  lemma WhiteBefore(u: Scalar, us: seq<Scalar>, rest: Bytes)
    requires IsWhiteSpace(u) && AllWhite(us)
    ensures AllWhite([u] + us) && EncodeAll([u] + us) + rest == Encode(u) + (EncodeAll(us) + rest)
  {
    assert ([u] + us)[1..] == us;
    ConcatAssoc(Encode(u), EncodeAll(us), rest);
  }

  lemma WhiteAfter(rest: Bytes, us: seq<Scalar>, u: Scalar)
    requires IsWhiteSpace(u) && AllWhite(us)
    ensures AllWhite(us + [u]) && rest + EncodeAll(us + [u]) == rest + EncodeAll(us) + Encode(u)
  {
    EncodeAppend(us, u);
    ConcatAssoc(rest, EncodeAll(us), Encode(u));
  }

  lemma CutInTwo(s: Bytes, n: nat)
    requires n <= |s|
    ensures s == s[..n] + s[n..]
  {
  }

  lemma {:induction false} TrimStartMeans(s: Bytes) returns (front: seq<Scalar>)
    ensures AllWhite(front) && s == EncodeAll(front) + TrimStart(s) && LeadingSpace(TrimStart(s)) == 0
    decreases |s|
  {
    var w := LeadingSpace(s);
    if w == 0 {
      front := [];
      EmptyConcat(s);
    } else {
      var u := LeadingIsWhite(s);
      var others := TrimStartMeans(s[w..]);
      WhiteBefore(u, others, TrimStart(s));
      CutInTwo(s, w);
      front := [u] + others;
    }
  }

  lemma {:induction false} TrimEndMeans(s: Bytes) returns (back: seq<Scalar>)
    ensures AllWhite(back) && s == TrimEnd(s) + EncodeAll(back) && TrailingSpace(TrimEnd(s)) == 0
    decreases |s|
  {
    var w := TrailingSpace(s);
    if w == 0 {
      back := [];
      EmptyConcat(s);
    } else {
      var u := TrailingIsWhite(s);
      var others := TrimEndMeans(s[..|s| - w]);
      WhiteAfter(TrimEnd(s), others, u);
      CutInTwo(s, |s| - w);
      back := others + [u];
    }
  }

  /** No white space character at either end. */
  ghost predicate IsBare(s: Bytes) {
    forall u: Scalar :: IsWhiteSpace(u) ==> !StartsWith(s, Encode(u)) && !EndsWith(s, Encode(u))
  }

  predicate StartsWith(s: Bytes, c: Bytes) {
    |c| <= |s| && s[..|c|] == c
  }

  predicate EndsWith(s: Bytes, c: Bytes) {
    |c| <= |s| && s[|s| - |c|..] == c
  }

  lemma NoSpaceAtEnds(s: Bytes, w: nat)
    requires LeadingSpace(s) == 0 && TrailingSpace(s) == 0 && 1 <= w <= 3
    ensures !StartsInSpace(s, w) && !EndsInSpace(s, w)
  {
    if w == 1 {
      assert !StartsInSpace(s, 1) && !EndsInSpace(s, 1);
    } else if w == 2 {
      assert !StartsInSpace(s, 2) && !EndsInSpace(s, 2);
    } else {
      assert !StartsInSpace(s, 3) && !EndsInSpace(s, 3);
    }
  }

  lemma NoSpaceIsBare(s: Bytes)
    requires LeadingSpace(s) == 0 && TrailingSpace(s) == 0
    ensures IsBare(s)
  {
    forall u: Scalar | IsWhiteSpace(u)
      ensures !StartsWith(s, Encode(u)) && !EndsWith(s, Encode(u))
    {
      WhiteIsSpace(u);
      NoSpaceAtEnds(s, |Encode(u)|);
    }
  }

  lemma PrefixKeepsNoLeadingSpace(s: Bytes, t: Bytes)
    requires LeadingSpace(s) == 0 && t <= s
    ensures LeadingSpace(t) == 0
  {
    assert forall k :: 0 <= k <= |t| ==> t[..k] == s[..k];
  }

  /** Trimming cuts white space off both ends, nothing else, and leaves none there. */
  lemma TrimMeans(s: Bytes) returns (front: seq<Scalar>, back: seq<Scalar>)
    ensures AllWhite(front) && AllWhite(back) && s == EncodeAll(front) + Trim(s) + EncodeAll(back)
    ensures IsBare(Trim(s))
  {
    front := TrimStartMeans(s);
    back := TrimEndMeans(TrimStart(s));
    ConcatAssoc(EncodeAll(front), Trim(s), EncodeAll(back));
    assert Trim(s) <= TrimStart(s);
    PrefixKeepsNoLeadingSpace(TrimStart(s), Trim(s));
    NoSpaceIsBare(Trim(s));
  }

  // ------------------------------------------------------------------- trimming

  lemma SuffixOfConcat(a: Bytes, b: Bytes, k: nat)
    requires k <= |b|
    ensures (a + b)[|a + b| - k..] == b[|b| - k..] && (a + b)[..|a + b| - k] == a + b[..|b| - k]
  {
  }

  lemma WideSpaceIsNotAscii(c: Bytes)
    requires |c| >= 2 && c[0] < 0x80
    ensures !IsWhitespaceChar(c)
  {
  }

  predicate IsAscii(s: Bytes) {
    forall i :: 0 <= i < |s| ==> s[i] < 0x80
  }

  /** The last `k` bytes of `a + v` are those of `v`, or no white space when they reach into `a`. */
  lemma SpaceAtEndOfConcat(a: Bytes, v: Bytes, k: nat)
    requires v != [] && IsAscii(a) && 1 <= k <= 3
    ensures EndsInSpace(a + v, k) <==> EndsInSpace(v, k)
  {
    if k <= |v| {
      SuffixOfConcat(a, v, k);
    } else if k <= |a + v| {
      WideSpaceIsNotAscii((a + v)[|a + v| - k..]);
    }
  }

  lemma TrailingSpaceOfConcat(a: Bytes, v: Bytes)
    requires v != [] && IsAscii(a)
    ensures TrailingSpace(a + v) == TrailingSpace(v)
  {
    SpaceAtEndOfConcat(a, v, 1);
    SpaceAtEndOfConcat(a, v, 2);
    SpaceAtEndOfConcat(a, v, 3);
  }

  /** White space is taken off the end of `v` as long as there is any. */
  lemma {:induction false} TrimEndOfConcat(a: Bytes, v: Bytes)
    requires IsAscii(a)
    ensures TrimEnd(a + v) == if TrimEnd(v) == [] then TrimEnd(a) else a + TrimEnd(v)
    decreases |v|
  {
    if v == [] {
      EmptyConcat(a);
    } else {
      TrailingSpaceOfConcat(a, v);
      var w := TrailingSpace(v);
      if w > 0 {
        SuffixOfConcat(a, v, w);
        TrimEndOfConcat(a, v[..|v| - w]);
      }
    }
  }

  lemma TrimEndOfDataColon()
    ensures TrimEnd(DATA_COLON) == DATA_COLON
  {
    assert DATA_COLON[4..] == [COLON] && DATA_COLON[3..] == [97, COLON] && DATA_COLON[2..] == [116, 97, COLON];
    assert TrailingSpace(DATA_COLON) == 0;
  }

  lemma NoLeadingSpace(s: Bytes)
    requires |s| >= 1 && 0x20 < s[0] < 0x80
    ensures LeadingSpace(s) == 0
  {
    assert s[..1][0] == s[0];
    if |s| >= 2 {
      WideSpaceIsNotAscii(s[..2]);
    }
    if |s| >= 3 {
      WideSpaceIsNotAscii(s[..3]);
    }
  }

  lemma TrimAfterSpace(t: Bytes)
    ensures TrimStart([SPACE] + t) == TrimStart(t)
  {
    var s := [SPACE] + t;
    assert s[..1] == [SPACE] && s[1..] == t;
  }

  // -------------------------------------------------------------------- residue

  /** A value without the white space around it. */
  function Bare(v: Bytes): Bytes {
    TrimStart(TrimEnd(v))
  }

  /** What the end of the stream takes from an unterminated line. */
  function ResidueValue(line: Bytes): Option<Bytes> {
    var trimmed := Trim(line);
    if DATA_COLON <= trimmed then Some(TrimStart(trimmed[|DATA_COLON|..])) else None
  }

  lemma DataResidue(w: Bytes)
    ensures ResidueValue(DATA_COLON + w) == Some(Bare(w))
  {
    var line := DATA_COLON + w;
    NoLeadingSpace(line);
    TrimEndOfConcat(DATA_COLON, w);
    TrimEndOfDataColon();
    EmptyConcat(DATA_COLON);
    assert Trim(line) == DATA_COLON + TrimEnd(w);
    assert Trim(line)[|DATA_COLON|..] == TrimEnd(w);
  }

  /** An unterminated `data:` line contributes its value without the white space around it. */
  lemma FinishTakesResidue(p: ParserState, w: Bytes)
    requires p.buffer == DATA_COLON + w && IsUtf8(w)
    ensures Finish(p) == Fed(NEW_PARSER, Ok([SseFrame(p.event, JoinLines(p.data + [Bare(w)]))]))
  {
    AsciiIsUtf8(DATA_COLON);
    Utf8Concat(DATA_COLON, w);
    DataResidue(w);
  }

  // ------------------------------------------------- terminated or not

  /** The frames and the error of ending the stream with a line feed more. */
  function Terminated(p: ParserState): Result<seq<SseFrame>, GatewayError> {
    var fed := Feed(p, [LF]);
    match fed.result
    case Err(e) => Err(e)
    case Ok(frames) => Prepend(frames, Finish(fed.parser)).result
  }

  /** The parser at the end of an unterminated `line`, whatever is pending. */
  ghost predicate ReadAsTerminated(line: Bytes) {
    forall event, data :: Finish(ParserState(line, event, data)).result == Terminated(ParserState(line, event, data))
  }

  /** A data line has a colon and no white space around its value; others are no data lines when trimmed either. */
  predicate EndsPlainly(line: Bytes) {
    var stripped := StripCr(line);
    IsUtf8(line) ==>
      !NamesField(stripped, EVENT_FIELD)
      && if NamesField(stripped, DATA_FIELD)
         then COLON in stripped && Bare(ParseField(stripped).1) == ParseField(stripped).1
         else ResidueValue(line).None?
  }

  lemma TerminatedIs(p: ParserState)
    requires LF !in p.buffer
    ensures var line, q := StripCr(p.buffer), p.(buffer := []);
            Terminated(p) == if IsUtf8(line) then Ok(FramesAt(q, line) + Pending(AfterLine(q, line)))
                             else Err(INVALID_UTF8)
  {
    var whole := p.buffer + [LF];
    var full := p.(buffer := whole);
    var line, q := StripCr(p.buffer), p.(buffer := []);
    IndexOfIs(whole, LF, |p.buffer|);
    assert whole[..|p.buffer|] == p.buffer && whole[|p.buffer| + 1..] == [];
    DrainOne(full, |p.buffer|);
    var next := AfterLine(q, line);
    assert Drain(next) == Fed(next, Ok([]));
    EmptyConcat(FramesAt(q, line));
  }

  lemma StripCrKeepsUtf8(s: Bytes)
    ensures IsUtf8(StripCr(s)) <==> IsUtf8(s)
  {
    if EndsWithCr(s) {
      var t := s[..|s| - 1];
      assert s == t + [CR] + [];
      Utf8CutAtAscii(t, CR, []);
    }
  }

  lemma FinishIs(p: ParserState)
    ensures var q := p.(buffer := []);
            Finish(p).result == if !IsUtf8(p.buffer) then Err(INVALID_UTF8)
                                else if ResidueValue(p.buffer).None? then Ok(Pending(q))
                                else Ok(Pending(q.(data := q.data + [ResidueValue(p.buffer).value])))
  {
    if p.buffer == [] {
      assert Trim([]) == [];
    }
  }

  lemma BareOfStripped(w: Bytes)
    ensures Bare(StripCr(w)) == Bare(w)
  {
    if EndsWithCr(w) {
      assert w[|w| - 1..] == [CR];
      assert TrailingSpace(w) == 1;
    }
  }

  lemma BareAfterSpace(v: Bytes)
    ensures Bare([SPACE] + v) == Bare(v)
  {
    TrimEndOfConcat([SPACE], v);
    TrimAfterSpace(TrimEnd(v));
    if TrimEnd(v) == [] {
      EmptyConcat([SPACE]);
      var s: Bytes := [SPACE];
      assert s[0..] == [SPACE] && s[..0] == [];
    }
  }

  /** A terminated data line with a colon, and the same line at the end of the stream. */
  lemma DataLineValues(line: Bytes)
    requires NamesField(StripCr(line), DATA_FIELD) && COLON in StripCr(line)
    ensures ResidueValue(line) == Some(Bare(ParseField(StripCr(line)).1))
  {
    var stripped := StripCr(line);
    var k := IndexOf(stripped, COLON);
    assert stripped[..k] == DATA_FIELD && stripped[k] == COLON;
    var w := line[k + 1..];
    assert line == DATA_COLON + w;
    var v := stripped[k + 1..];
    assert v == StripCr(w);
    DataResidue(w);
    BareOfStripped(w);
    if v != [] && v[0] == SPACE {
      assert v == [SPACE] + v[1..];
      BareAfterSpace(v[1..]);
    }
  }

  lemma {:induction false} TrimStartKeeps(s: Bytes, b: Byte)
    requires b !in s
    ensures b !in TrimStart(s)
    decreases |s|
  {
    if LeadingSpace(s) > 0 {
      TrimStartKeeps(s[LeadingSpace(s)..], b);
    }
  }

  lemma {:induction false} TrimEndIsPrefix(s: Bytes)
    ensures TrimEnd(s) <= s
    decreases |s|
  {
    if TrailingSpace(s) > 0 {
      TrimEndIsPrefix(s[..|s| - TrailingSpace(s)]);
    }
  }

  /** Without a colon nothing is taken. */
  lemma NoColonNoResidue(line: Bytes)
    ensures ResidueValue(line).Some? ==> COLON in line
  {
    TrimEndIsPrefix(TrimStart(line));
    if COLON !in line {
      TrimStartKeeps(line, COLON);
    }
    assert ResidueValue(line).Some? ==> Trim(line)[4] == COLON;
  }

  /** An event line is no data line. */
  lemma EventIsNoResidue(line: Bytes)
    requires NamesField(StripCr(line), EVENT_FIELD)
    ensures ResidueValue(line).None?
  {
    var stripped := StripCr(line);
    assert stripped[..IndexOf(stripped, COLON)][0] == 101;
    assert line[0] == 101;
    NoLeadingSpace(line);
    TrimEndIsPrefix(line);
  }

  /** What a terminated line makes pending, and what the same line does at the end of the stream. */
  lemma EndingsDiffer(line: Bytes, p: ParserState)
    requires LF !in line && p.buffer == line && IsUtf8(line)
    ensures var stripped, q := StripCr(line), p.(buffer := []);
            && Terminated(p) == Ok(if NamesField(stripped, EVENT_FIELD)
                                   then Pending(q.(event := Some(ParseField(stripped).1)))
                                   else if NamesField(stripped, DATA_FIELD)
                                   then Pending(q.(data := q.data + [ParseField(stripped).1]))
                                   else Pending(q))
            && Finish(p).result == Ok(if ResidueValue(line).None? then Pending(q)
                                      else Pending(q.(data := q.data + [ResidueValue(line).value])))
  {
    var stripped, q := StripCr(line), p.(buffer := []);
    StripCrKeepsUtf8(line);
    TerminatedIs(p);
    FinishIs(p);
    EmptyConcat(Pending(q));
    EmptyConcat(Pending(AfterLine(q, stripped)));
    assert EVENT_FIELD != DATA_FIELD;
  }

  /**
   The end of the stream reads its last line as if it had been terminated, whatever is pending,
   exactly in these cases: a line that is not UTF-8 (an error both ways), a `data:` line without
   white space around its value, or a line that is no event and no data line, trimmed or not.
   */
  lemma FinishReadsAsTerminated(line: Bytes)
    requires LF !in line
    ensures ReadAsTerminated(line) <==> EndsPlainly(line)
  {
    if EndsPlainly(line) {
      forall event, data
        ensures Finish(ParserState(line, event, data)).result == Terminated(ParserState(line, event, data))
      {
        PlainEnding(line, ParserState(line, event, data));
      }
    } else {
      FreshEnding(line);
    }
  }

  lemma PlainEnding(line: Bytes, p: ParserState)
    requires LF !in line && p.buffer == line && EndsPlainly(line)
    ensures Finish(p).result == Terminated(p)
  {
    if IsUtf8(line) {
      EndingsDiffer(line, p);
      if NamesField(StripCr(line), DATA_FIELD) {
        DataLineValues(line);
      }
    } else {
      StripCrKeepsUtf8(line);
      TerminatedIs(p);
      FinishIs(p);
    }
  }

  lemma FreshFrames(name: Bytes, v: Bytes)
    ensures Pending(NEW_PARSER) == []
    ensures Pending(NEW_PARSER.(event := Some(name))) == [SseFrame(Some(name), [])]
    ensures Pending(NEW_PARSER.(data := [] + [v])) == [SseFrame(None, v)]
  {
  }

  /** A parser with nothing pending shows the difference. */
  lemma FreshEnding(line: Bytes)
    requires LF !in line && !EndsPlainly(line)
    ensures Finish(ParserState(line, None, [])).result != Terminated(ParserState(line, None, []))
  {
    var stripped := StripCr(line);
    var value := ParseField(stripped).1;
    EndingsDiffer(line, ParserState(line, None, []));
    FreshFrames(value, value);
    if ResidueValue(line).Some? {
      FreshFrames(value, ResidueValue(line).value);
    }
    if NamesField(stripped, EVENT_FIELD) {
      EventIsNoResidue(line);
    } else if NamesField(stripped, DATA_FIELD) && COLON in stripped {
      DataLineValues(line);
    } else if NamesField(stripped, DATA_FIELD) {
      NoColonNoResidue(line);
    }
  }
}
