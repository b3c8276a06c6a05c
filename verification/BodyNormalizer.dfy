// The normalised symbol body that pairs a renamed symbol with its old self.

/** `normalized_body_hash` and the theorem it rests on: renaming an identifier
    consistently leaves the normalised body unchanged. */
module BodyNormalizer {

  type Byte = b: nat | b < 256

  datatype Source = Source(bytes: seq<Byte>, signature: seq<Byte>, truncated: bool)

  datatype Body = NoBody | Body(normalized: seq<Byte>)

  /** The bytes of `<identifier>`. */
  const MARKER: seq<Byte> := [60, 105, 100, 101, 110, 116, 105, 102, 105, 101, 114, 62]

  predicate IdentifierByte(b: Byte) {
    48 <= b <= 57 || 65 <= b <= 90 || 97 <= b <= 122 || b == 95 || b >= 128
  }

  predicate WhitespaceByte(b: Byte) {
    b == 32 || b == 9 || b == 10 || b == 12 || b == 13
  }

  /** The classes of the ASCII bytes, and of the others. */
  lemma ByteClasses(c: char)
    requires c as int < 256
    ensures IdentifierByte(c as Byte) <==>
              'a' <= c <= 'z' || 'A' <= c <= 'Z' || '0' <= c <= '9' || c == '_' || c as int >= 128
    ensures WhitespaceByte(c as Byte) <==> c in {' ', '\t', '\n', '\r', '\U{000C}'}
  {
  }

  lemma MarkerText()
    ensures |MARKER| == |"<identifier>"| && forall k :: 0 <= k < |MARKER| ==> MARKER[k] == "<identifier>"[k] as nat
  {
  }

  predicate IsIdentifier(id: seq<Byte>) {
    id != [] && forall k :: 0 <= k < |id| ==> IdentifierByte(id[k])
  }

  // ---- The scan ---------------------------------------------------------------

  predicate ReplacesAt(s: seq<Byte>, id: seq<Byte>, at: nat)
    requires at <= |s|
  {
    && at + |id| <= |s| && s[at..at + |id|] == id
    && (at == 0 || !IdentifierByte(s[at - 1]))
    && (at + |id| == |s| || !IdentifierByte(s[at + |id|]))
  }

  /** What the scan still appends from position `at` on. */
  function ScanFrom(s: seq<Byte>, id: seq<Byte>, at: nat): seq<Byte>
    requires at <= |s| && id != []
    decreases |s| - at
  {
    if at == |s| then []
    else if ReplacesAt(s, id, at) then MARKER + ScanFrom(s, id, at + |id|)
    else (if WhitespaceByte(s[at]) then [] else [s[at]]) + ScanFrom(s, id, at + 1)
  }

  lemma Assoc(a: seq<Byte>, b: seq<Byte>, c: seq<Byte>)
    ensures (a + b) + c == a + (b + c)
  {
  }

  lemma ScanReplaces(s: seq<Byte>, id: seq<Byte>, at: nat, before: seq<Byte>)
    requires at < |s| && id != [] && ReplacesAt(s, id, at)
    ensures before + ScanFrom(s, id, at) == (before + MARKER) + ScanFrom(s, id, at + |id|)
  {
    Assoc(before, MARKER, ScanFrom(s, id, at + |id|));
  }

  lemma ScanCopies(s: seq<Byte>, id: seq<Byte>, at: nat, before: seq<Byte>)
    requires at < |s| && id != [] && !ReplacesAt(s, id, at)
    ensures before + ScanFrom(s, id, at) ==
              (before + if WhitespaceByte(s[at]) then [] else [s[at]]) + ScanFrom(s, id, at + 1)
  {
    Assoc(before, if WhitespaceByte(s[at]) then [] else [s[at]], ScanFrom(s, id, at + 1));
  }

  /** The scanning loop. */
  method Scan(s: seq<Byte>, identifier: seq<Byte>) returns (normalized: seq<Byte>)
    requires identifier != []
    ensures normalized == ScanFrom(s, identifier, 0)
  {
    normalized := [];
    var at := 0;
    while at < |s|
      invariant at <= |s|
      invariant normalized + ScanFrom(s, identifier, at) == ScanFrom(s, identifier, 0)
    {
      if ReplacesAt(s, identifier, at) {
        ScanReplaces(s, identifier, at, normalized);
        normalized := normalized + MARKER;
        at := at + |identifier|;
      } else {
        ScanCopies(s, identifier, at, normalized);
        normalized := normalized + if WhitespaceByte(s[at]) then [] else [s[at]];
        at := at + 1;
      }
    }
  }

  /** For an identifier made of identifier bytes the scan normalises word by word; a
      truncated source or an empty name has no normalised body. */
  method NormalizedBody(source: Source, identifier: seq<Byte>) returns (r: Body)
    ensures r.NoBody? <==> source.truncated || identifier == []
    ensures !source.truncated && IsIdentifier(identifier) ==> r == Body(NormalPieces(Tokens(source.bytes), identifier))
    ensures r == BodyOf(source, identifier)
  {
    if source.truncated || identifier == [] {
      return NoBody;
    }
    var normalized := Scan(source.bytes, identifier);
    if IsIdentifier(identifier) {
      ScanIsWordwise(source.bytes, identifier);
    }
    return Body(normalized);
  }

  function BodyOf(source: Source, identifier: seq<Byte>): Body {
    if source.truncated || identifier == [] then NoBody else Body(ScanFrom(source.bytes, identifier, 0))
  }

  // ---- Words ------------------------------------------------------------------

  /** A maximal run of identifier bytes, or one other byte. */
  datatype Piece = Word(bytes: seq<Byte>) | Other(byte: Byte)

  function RunEnd(s: seq<Byte>, at: nat): (e: nat)
    requires at <= |s|
    ensures at <= e <= |s|
    ensures forall k :: at <= k < e ==> IdentifierByte(s[k])
    ensures e == |s| || !IdentifierByte(s[e])
    decreases |s| - at
  {
    if at < |s| && IdentifierByte(s[at]) then RunEnd(s, at + 1) else at
  }

  function TokensFrom(s: seq<Byte>, at: nat): seq<Piece>
    requires at <= |s|
    decreases |s| - at
  {
    if at == |s| then []
    else if IdentifierByte(s[at]) then [Word(s[at..RunEnd(s, at)])] + TokensFrom(s, RunEnd(s, at))
    else [Other(s[at])] + TokensFrom(s, at + 1)
  }

  function Tokens(s: seq<Byte>): seq<Piece> {
    TokensFrom(s, 0)
  }

  function Flat(ps: seq<Piece>): seq<Byte> {
    if ps == [] then [] else HeadOf(ps[0]) + Flat(ps[1..])
  }

  function HeadOf(p: Piece): seq<Byte> {
    match p case Word(w) => w case Other(b) => [b]
  }

  /** Words are identifiers, other bytes are not, and no two words touch. */
  predicate Canonical(ps: seq<Piece>) {
    && (forall k :: 0 <= k < |ps| ==> match ps[k] case Word(w) => IsIdentifier(w) case Other(b) => !IdentifierByte(b))
    && (forall k :: 0 <= k < |ps| - 1 ==> ps[k].Word? ==> ps[k + 1].Other?)
  }

  /** The normalised body, word by word. */
  function NormalPieces(ps: seq<Piece>, id: seq<Byte>): seq<Byte> {
    if ps == [] then []
    else (match ps[0]
          case Word(w) => if w == id then MARKER else w
          case Other(b) => if WhitespaceByte(b) then [] else [b])
         + NormalPieces(ps[1..], id)
  }

  function RenameWords(ps: seq<Piece>, a: seq<Byte>, b: seq<Byte>): seq<Piece> {
    if ps == [] then [] else [if ps[0] == Word(a) then Word(b) else ps[0]] + RenameWords(ps[1..], a, b)
  }

  /** `s` with every whole word `a` replaced by `b`. */
  function Rename(s: seq<Byte>, a: seq<Byte>, b: seq<Byte>): seq<Byte> {
    Flat(RenameWords(Tokens(s), a, b))
  }

  lemma SplitAt(s: seq<Byte>, at: nat, next: nat)
    requires at <= next <= |s|
    ensures s[at..] == s[at..next] + s[next..]
  {
  }

  lemma CanonicalCons(p: Piece, ps: seq<Piece>)
    requires Canonical(ps) && IsPiece(p) && (p.Word? && ps != [] ==> ps[0].Other?)
    ensures Canonical([p] + ps) && Flat([p] + ps) == HeadOf(p) + Flat(ps)
  {
    var all := [p] + ps;
    assert all[1..] == ps;
    assert forall k :: 0 < k < |all| ==> all[k] == ps[k - 1];
  }

  lemma {:induction false} TokensAreCanonical(s: seq<Byte>, at: nat)
    requires at <= |s|
    ensures Canonical(TokensFrom(s, at)) && Flat(TokensFrom(s, at)) == s[at..]
    ensures at < |s| && !IdentifierByte(s[at]) ==> TokensFrom(s, at)[0].Other?
    decreases |s| - at
  {
    if at < |s| {
      var next := if IdentifierByte(s[at]) then RunEnd(s, at) else at + 1;
      var p := if IdentifierByte(s[at]) then Word(s[at..next]) else Other(s[at]);
      TokensAreCanonical(s, next);
      assert TokensFrom(s, at) == [p] + TokensFrom(s, next);
      CanonicalCons(p, TokensFrom(s, next));
      SplitAt(s, at, next);
    }
  }

  lemma FlatSplit(before: seq<Byte>, ps: seq<Piece>)
    requires ps != []
    ensures before + Flat(ps) == (before + HeadOf(ps[0])) + Flat(ps[1..])
  {
    Assoc(before, HeadOf(ps[0]), Flat(ps[1..]));
  }

  lemma Middle(before: seq<Byte>, w: seq<Byte>, after: seq<Byte>)
    requires w != []
    ensures (before + w + after)[|before|..|before| + |w|] == w && (before + w + after)[|before|] == w[0]
  {
  }

  lemma WordToken(s: seq<Byte>, at: nat, w: seq<Byte>)
    requires at < at + |w| <= |s| && s[at..at + |w|] == w && IdentifierByte(s[at]) && RunEnd(s, at) == at + |w|
    ensures TokensFrom(s, at) == [Word(w)] + TokensFrom(s, at + |w|)
  {
  }

  lemma OtherToken(s: seq<Byte>, at: nat)
    requires at < |s| && !IdentifierByte(s[at])
    ensures TokensFrom(s, at) == [Other(s[at])] + TokensFrom(s, at + 1)
  {
  }

  predicate IsPiece(p: Piece) {
    match p case Word(w) => IsIdentifier(w) case Other(b) => !IdentifierByte(b)
  }

  /** The piece `p` stands in `s` from `at` on. */
  predicate StartsAt(s: seq<Byte>, at: nat, p: Piece) {
    && at < |s| && HeadOf(p) != [] && at + |HeadOf(p)| <= |s|
    && s[at..at + |HeadOf(p)|] == HeadOf(p) && s[at] == HeadOf(p)[0]
    && (p.Word? ==> RunEnd(s, at) == at + |HeadOf(p)|)
  }

  lemma PieceStarts(before: seq<Byte>, p: Piece, after: seq<Byte>)
    requires IsPiece(p) && (p.Word? && after != [] ==> !IdentifierByte(after[0]))
    ensures StartsAt(before + HeadOf(p) + after, |before|, p)
  {
    Middle(before, HeadOf(p), after);
    if p.Word? {
      RunStops(before, p.bytes, after);
    }
  }

  lemma TokensStep(s: seq<Byte>, at: nat, p: Piece)
    requires IsPiece(p) && StartsAt(s, at, p)
    ensures TokensFrom(s, at) == [p] + TokensFrom(s, at + |HeadOf(p)|)
  {
    match p
    case Word(w) => WordToken(s, at, w);
    case Other(b) => OtherToken(s, at);
  }

  lemma AfterWord(ps: seq<Piece>)
    requires Canonical(ps) && ps != []
    ensures Canonical(ps[1..])
    ensures ps[0].Word? && Flat(ps[1..]) != [] ==> !IdentifierByte(Flat(ps[1..])[0])
  {
  }

  lemma FirstPiece(s: seq<Byte>, before: seq<Byte>, ps: seq<Piece>)
    requires Canonical(ps) && ps != [] && s == before + Flat(ps)
    ensures StartsAt(s, |before|, ps[0]) && s == (before + HeadOf(ps[0])) + Flat(ps[1..])
  {
    FlatSplit(before, ps);
    AfterWord(ps);
    PieceStarts(before, ps[0], Flat(ps[1..]));
  }

  /** Splitting undoes joining, for words that do not touch. */
  lemma {:induction false} TokensOfFlat(s: seq<Byte>, before: seq<Byte>, ps: seq<Piece>)
    requires Canonical(ps) && s == before + Flat(ps)
    ensures TokensFrom(s, |before|) == ps
    decreases |ps|
  {
    if ps != [] {
      FirstPiece(s, before, ps);
      TokensStep(s, |before|, ps[0]);
      TokensOfFlat(s, before + HeadOf(ps[0]), ps[1..]);
      assert ps == [ps[0]] + ps[1..];
    }
  }

  /** A run ends where a word is followed by something else or by nothing. */
  lemma {:induction false} RunStops(before: seq<Byte>, word: seq<Byte>, after: seq<Byte>)
    requires forall k :: 0 <= k < |word| ==> IdentifierByte(word[k])
    requires after == [] || !IdentifierByte(after[0])
    ensures RunEnd(before + word + after, |before|) == |before| + |word|
    decreases |word|
  {
    if word != [] {
      var s := before + word + after;
      assert s == (before + word[..1]) + word[1..] + after;
      RunStops(before + word[..1], word[1..], after);
    } else {
      var s := before + word + after;
      assert |before| == |s| || s[|before|] == after[0];
    }
  }

  // ---- The scan is word by word -----------------------------------------------

  /** Strictly inside a word nothing is replaced and every byte is kept. */
  lemma {:induction false} ScanInsideWord(s: seq<Byte>, id: seq<Byte>, at: nat)
    requires 0 < at <= |s| && id != [] && IdentifierByte(s[at - 1])
    ensures ScanFrom(s, id, at) == s[at..RunEnd(s, at)] + ScanFrom(s, id, RunEnd(s, at))
    decreases |s| - at
  {
    if at < |s| && IdentifierByte(s[at]) {
      ScanInsideWord(s, id, at + 1);
      assert s[at..RunEnd(s, at)] == [s[at]] + s[at + 1..RunEnd(s, at)];
    }
  }

  lemma WordIsReplaced(s: seq<Byte>, id: seq<Byte>, at: nat)
    requires at < |s| && IsIdentifier(id) && ReplacesAt(s, id, at)
    ensures s[at..RunEnd(s, at)] == id && ScanFrom(s, id, at) == MARKER + ScanFrom(s, id, RunEnd(s, at))
  {
    ReplacedSplits(s, id, at);
    RunStops(s[..at], id, s[at + |id|..]);
  }

  lemma ReplacedSplits(s: seq<Byte>, id: seq<Byte>, at: nat)
    requires at <= |s| && ReplacesAt(s, id, at)
    ensures s == s[..at] + id + s[at + |id|..] && (s[at + |id|..] == [] || !IdentifierByte(s[at + |id|..][0]))
  {
    assert s == s[..at] + s[at..at + |id|] + s[at + |id|..];
  }

  lemma WordDiffers(s: seq<Byte>, id: seq<Byte>, at: nat)
    requires at < |s| && !ReplacesAt(s, id, at) && (at == 0 || !IdentifierByte(s[at - 1]))
    ensures s[at..RunEnd(s, at)] != id
  {
  }

  lemma WordIsCopied(s: seq<Byte>, id: seq<Byte>, at: nat)
    requires at < |s| && IsIdentifier(id) && IdentifierByte(s[at]) && !ReplacesAt(s, id, at)
    ensures ScanFrom(s, id, at) == s[at..RunEnd(s, at)] + ScanFrom(s, id, RunEnd(s, at))
  {
    var e := RunEnd(s, at);
    ScanInsideWord(s, id, at + 1);
    assert RunEnd(s, at + 1) == e;
    Prepend(s, at, e, ScanFrom(s, id, e));
  }

  lemma Prepend(s: seq<Byte>, at: nat, e: nat, rest: seq<Byte>)
    requires at < e <= |s|
    ensures s[at..e] + rest == [s[at]] + (s[at + 1..e] + rest)
  {
    assert s[at..e] == [s[at]] + s[at + 1..e];
    Assoc([s[at]], s[at + 1..e], rest);
  }

  lemma ScanWord(s: seq<Byte>, id: seq<Byte>, at: nat)
    requires at < |s| && IsIdentifier(id) && IdentifierByte(s[at]) && (at == 0 || !IdentifierByte(s[at - 1]))
    ensures var w := s[at..RunEnd(s, at)];
            ScanFrom(s, id, at) == (if w == id then MARKER else w) + ScanFrom(s, id, RunEnd(s, at))
  {
    if ReplacesAt(s, id, at) {
      WordIsReplaced(s, id, at);
    } else {
      WordDiffers(s, id, at);
      WordIsCopied(s, id, at);
    }
  }

  lemma {:induction false} ScanFromBoundary(s: seq<Byte>, id: seq<Byte>, at: nat)
    requires at <= |s| && IsIdentifier(id)
    requires at == 0 || at == |s| || !IdentifierByte(s[at - 1]) || !IdentifierByte(s[at])
    ensures ScanFrom(s, id, at) == NormalPieces(TokensFrom(s, at), id)
    decreases |s| - at
  {
    if at == |s| {
      BoundaryEnd(s, id);
    } else if IdentifierByte(s[at]) {
      ScanFromBoundary(s, id, RunEnd(s, at));
      BoundaryWord(s, id, at);
    } else {
      ScanFromBoundary(s, id, at + 1);
      BoundaryOther(s, id, at);
    }
  }

  lemma BoundaryEnd(s: seq<Byte>, id: seq<Byte>)
    requires id != []
    ensures ScanFrom(s, id, |s|) == NormalPieces(TokensFrom(s, |s|), id)
  {
  }

  lemma BoundaryWord(s: seq<Byte>, id: seq<Byte>, at: nat)
    requires at < |s| && IsIdentifier(id) && IdentifierByte(s[at]) && (at == 0 || !IdentifierByte(s[at - 1]))
    requires ScanFrom(s, id, RunEnd(s, at)) == NormalPieces(TokensFrom(s, RunEnd(s, at)), id)
    ensures ScanFrom(s, id, at) == NormalPieces(TokensFrom(s, at), id)
  {
    ScanWord(s, id, at);
    assert TokensFrom(s, at)[1..] == TokensFrom(s, RunEnd(s, at));
  }

  lemma BoundaryOther(s: seq<Byte>, id: seq<Byte>, at: nat)
    requires at < |s| && IsIdentifier(id) && !IdentifierByte(s[at])
    requires ScanFrom(s, id, at + 1) == NormalPieces(TokensFrom(s, at + 1), id)
    ensures ScanFrom(s, id, at) == NormalPieces(TokensFrom(s, at), id)
  {
    assert !ReplacesAt(s, id, at) by {
      assert at + |id| <= |s| ==> s[at..at + |id|][0] == s[at];
    }
    assert TokensFrom(s, at)[1..] == TokensFrom(s, at + 1);
  }

  lemma ScanIsWordwise(s: seq<Byte>, id: seq<Byte>)
    requires IsIdentifier(id)
    ensures ScanFrom(s, id, 0) == NormalPieces(Tokens(s), id)
  {
    ScanFromBoundary(s, id, 0);
  }

  // ---- Rename invariance ------------------------------------------------------

  lemma {:induction false} RenameKeepsCanonical(ps: seq<Piece>, a: seq<Byte>, b: seq<Byte>)
    requires Canonical(ps) && IsIdentifier(b)
    ensures Canonical(RenameWords(ps, a, b))
    ensures |RenameWords(ps, a, b)| == |ps|
    ensures forall k :: 0 <= k < |ps| ==> RenameWords(ps, a, b)[k].Word? == ps[k].Word?
  {
    if ps != [] {
      RenameKeepsCanonical(ps[1..], a, b);
      var rest := RenameWords(ps[1..], a, b);
      var all := RenameWords(ps, a, b);
      assert forall k :: 0 < k < |ps| ==> all[k] == rest[k - 1] && ps[k] == ps[1..][k - 1];
    }
  }

  lemma {:induction false} NormalOfRenamedWords(ps: seq<Piece>, a: seq<Byte>, b: seq<Byte>)
    requires Canonical(ps) && IsIdentifier(a) && IsIdentifier(b)
    ensures NormalPieces(RenameWords(ps, a, b), b) == NormalPieces(ps, a) <==> a == b || Word(b) !in ps
  {
    if ps != [] {
      assert Canonical(ps[1..]) by {
        assert forall k :: 0 <= k < |ps| - 1 ==> ps[1..][k] == ps[k + 1];
      }
      NormalOfRenamedWords(ps[1..], a, b);
      var left, right := NormalPieces(RenameWords(ps, a, b), b), NormalPieces(ps, a);
      assert RenameWords(ps, a, b)[1..] == RenameWords(ps[1..], a, b);
      assert Word(b) in ps <==> ps[0] == Word(b) || Word(b) in ps[1..];
      if ps[0] == Word(b) && a != b {
        // One side starts with the marker, the other with the word itself.
        assert left[0] == 60 && right[0] == b[0];
      } else {
        var x := match ps[0]
          case Word(w) => (if w == a then MARKER else w)
          case Other(o) => if WhitespaceByte(o) then [] else [o];
        var l, r := NormalPieces(RenameWords(ps[1..], a, b), b), NormalPieces(ps[1..], a);
        assert left == x + l && right == x + r;
        assert (x + l)[|x|..] == l && (x + r)[|x|..] == r;
      }
    }
  }

  /** Renaming the whole word `a` to `b` throughout a source, and asking for `b`
      instead of `a`, gives the same normalised body exactly when `b` was not
      already a word of that source. */
  lemma RenameInvariance(s: seq<Byte>, a: seq<Byte>, b: seq<Byte>)
    requires IsIdentifier(a) && IsIdentifier(b)
    ensures ScanFrom(Rename(s, a, b), b, 0) == ScanFrom(s, a, 0) <==> a == b || Word(b) !in Tokens(s)
  {
    TokensAreCanonical(s, 0);
    var ps := RenameWords(Tokens(s), a, b);
    RenameKeepsCanonical(Tokens(s), a, b);
    assert [] + Flat(ps) == Flat(ps);
    TokensOfFlat(Flat(ps), [], ps);
    ScanIsWordwise(s, a);
    ScanIsWordwise(Rename(s, a, b), b);
    NormalOfRenamedWords(Tokens(s), a, b);
  }
}
