/** Event ids of the form {run_id}_event_{sequence}, and when the sequence can be read back. */
module EventId {
  import opened Common

  const SEPARATOR := "_event_"

  function Digit(d: nat): char
    requires d < 10
  {
    ['0', '1', '2', '3', '4', '5', '6', '7', '8', '9'][d]
  }

  predicate IsDigit(c: char) {
    '0' <= c <= '9'
  }

  function DigitValue(c: char): (d: nat)
    requires IsDigit(c)
    ensures d < 10 && Digit(d) == c
  {
    (c as int) - ('0' as int)
  }

  function DecimalNat(n: nat): (s: string)
    ensures s != "" && forall c :: c in s ==> IsDigit(c)
  {
    if n < 10 then [Digit(n)] else DecimalNat(n / 10) + [Digit(n % 10)]
  }

  function Decimal(n: int): string {
    if n < 0 then "-" + DecimalNat(-n) else DecimalNat(n)
  }

  function GenerateEventId(runId: string, sequence: int): string {
    runId + SEPARATOR + Decimal(sequence)
  }

  // ---------------------------------------------------------------------------
  // Splitting
  // ---------------------------------------------------------------------------

  predicate At(s: string, p: int) {
    0 <= p <= |s| - 7 && s[p..p + 7] == SEPARATOR
  }

  /** The first occurrence of the separator at or after `from`. */
  function Find(s: string, from: nat): (p: Option<nat>)
    requires from <= |s|
    ensures p.Some? ==> from <= p.value && At(s, p.value) && forall q :: from <= q < p.value ==> !At(s, q)
    ensures p.None? ==> forall q :: from <= q ==> !At(s, q)
    decreases |s| - from
  {
    if At(s, from) then Some(from)
    else if from == |s| then None
    else Find(s, from + 1)
  }

  /** `s[from..].split("_event_")`: from left to right, without overlaps. */
  function Split(s: string, from: nat): (pieces: seq<string>)
    requires from <= |s|
    ensures pieces != []
    decreases |s| - from
  {
    var p := Find(s, from);
    if p.None? then [s[from..]] else [s[from..p.value]] + Split(s, p.value + 7)
  }

  function LastPiece(s: string, from: nat): string
    requires from <= |s|
  {
    var pieces := Split(s, from);
    pieces[|pieces| - 1]
  }

  // ---------------------------------------------------------------------------
  // Reading an integer
  // ---------------------------------------------------------------------------

  predicate IsSpace(c: char) {
    c == ' ' || '\t' <= c <= '\r' || '\U{1c}' <= c <= '\U{1f}'
  }

  function Stripped(s: string): string
    decreases |s|
  {
    if s == "" then s
    else if IsSpace(s[0]) then Stripped(s[1..])
    else if IsSpace(s[|s| - 1]) then Stripped(s[..|s| - 1])
    else s
  }

  /** Digits, with single underscores between them. */
  function Digits(s: string): (n: Option<nat>)
    decreases |s|
  {
    if s == "" || !IsDigit(s[|s| - 1]) then None
    else if |s| == 1 then Some(DigitValue(s[0]))
    else
      var more := Digits(if s[|s| - 2] == '_' then s[..|s| - 2] else s[..|s| - 1]);
      if more.None? then None else Some(10 * more.value + DigitValue(s[|s| - 1]))
  }

  /** `int(s)` over ASCII text; None is a ValueError. */
  function PyInt(text: string): Option<int> {
    var s := Stripped(text);
    if s == "" then None
    else
      var n := Digits(if s[0] == '-' || s[0] == '+' then s[1..] else s);
      if n.None? then None
      else
        var value: int := n.value;
        Some(if s[0] == '-' then -value else value)
  }

  function ExtractEventSequence(eventId: string): int {
    var n := PyInt(LastPiece(eventId, 0));
    if n.None? then 0 else n.value
  }

  // ---------------------------------------------------------------------------
  // When the sequence survives
  // ---------------------------------------------------------------------------

  /** How many "_event" blocks end at `e`, one directly before the other, starting no earlier than `from`. */
  function BlocksBefore(s: string, from: nat, e: nat): nat
    requires e <= |s|
  {
    if from + 6 <= e && s[e - 6..e] == "_event" then 1 + BlocksBefore(s, from, e - 6) else 0
  }

  function TrailingBlocks(runId: string): nat {
    BlocksBefore(runId, 0, |runId|)
  }

  /** Two occurrences overlap in one character or not at all. */
  lemma Overlap(s: string, p: nat, q: nat)
    requires At(s, p) && At(s, q) && p < q < p + 7
    ensures q == p + 6
  {
    assert s[p..p + 7][q - p] == SEPARATOR[q - p];
    assert s[q..q + 7][0] == SEPARATOR[0];
  }

  lemma BlockIsAt(s: string, e: nat)
    requires 6 <= e < |s| && s[e - 6..e] == "_event" && s[e] == '_'
    ensures At(s, e - 6)
  {
    assert s[e - 6..e + 1] == s[e - 6..e] + [s[e]];
  }

  lemma AtIsBlock(s: string, p: nat)
    requires At(s, p)
    ensures s[p..p + 6] == "_event" && s[p] == '_' && s[p + 6] == '_'
  {
    var t := s[p..p + 7];
    assert s[p..p + 6] == t[..6];
    assert s[p] == t[0] && s[p + 6] == t[6];
  }

  /** Cutting at the first occurrence takes an even number of blocks away. */
  lemma {:induction false} CutKeepsParity(s: string, from: nat, p: nat, e: nat)
    requires At(s, p) && from <= p && (forall q :: from <= q < p ==> !At(s, q))
    requires p + 7 <= e < |s| && s[e] == '_'
    ensures BlocksBefore(s, from, e) % 2 == BlocksBefore(s, p + 7, e) % 2
  {
    if s[e - 6..e] == "_event" {
      BlockIsAt(s, e);
      assert s[e - 6..e][0] == s[e - 6];
      if e - 6 >= p + 7 {
        CutKeepsParity(s, from, p, e - 6);
      } else {
        Overlap(s, p, e - 6);
        FirstHasNoBlockBefore(s, from, p);
        AtIsBlock(s, p);
      }
    }
  }

  lemma FirstHasNoBlockBefore(s: string, from: nat, p: nat)
    requires At(s, p) && from <= p && (forall q :: from <= q < p ==> !At(s, q))
    ensures BlocksBefore(s, from, p) == 0
  {
    AtIsBlock(s, p);
    if from + 6 <= p && s[p - 6..p] == "_event" {
      BlockIsAt(s, p);
      assert false;
    }
  }

  /** `r` characters, the separator, and a tail without underscores. */
  ghost predicate Shape(s: string, r: nat) {
    At(s, r) && forall i :: r + 7 <= i < |s| ==> s[i] == '-' || IsDigit(s[i])
  }

  lemma NoneAfter(s: string, r: nat, q: nat)
    requires Shape(s, r) && r < q
    ensures !At(s, q)
  {
    if At(s, q) {
      assert s[q..q + 7][0] == '_' && s[q..q + 7][1] == 'e';
      assert s[q] == '_' && s[q + 1] == 'e';
      if q < r + 7 {
        Overlap(s, r, q);
      }
      assert false;
    }
  }

  lemma CutOnce(s: string, from: nat)
    requires from <= |s|
    ensures Find(s, from).None? ==> LastPiece(s, from) == s[from..]
    ensures Find(s, from).Some? ==> LastPiece(s, from) == LastPiece(s, Find(s, from).value + 7)
  {
  }

  lemma NoMoreCuts(s: string, r: nat, from: nat)
    requires Shape(s, r) && r < from <= |s|
    ensures LastPiece(s, from) == s[from..]
  {
    CutOnce(s, from);
    if Find(s, from).Some? {
      NoneAfter(s, r, Find(s, from).value);
    }
  }

  /** `p` is where the split first cuts from `from` on, at or before the separator at `r`. */
  ghost predicate CutsFirst(s: string, from: nat, p: nat, r: nat) {
    At(s, r) && At(s, p) && from <= p <= r && forall q :: from <= q < p ==> !At(s, q)
  }

  lemma CutBefore(s: string, from: nat, p: nat, r: nat)
    requires CutsFirst(s, from, p, r) && p + 7 <= r
    ensures BlocksBefore(s, from, r) % 2 == BlocksBefore(s, p + 7, r) % 2
  {
    AtIsBlock(s, r);
    CutKeepsParity(s, from, p, r);
  }

  lemma CutAcross(s: string, from: nat, p: nat, r: nat)
    requires CutsFirst(s, from, p, r) && p < r < p + 7
    ensures r == p + 6 && BlocksBefore(s, from, r) == 1
  {
    Overlap(s, p, r);
    AtIsBlock(s, p);
    FirstHasNoBlockBefore(s, from, p);
  }

  /** What the split leaves last, by the number of blocks before the separator at `r`. */
  function Tail(s: string, r: nat, blocks: nat): string
    requires r + 7 <= |s|
  {
    if blocks % 2 == 0 then s[r + 7..] else s[r + 1..]
  }

  lemma LastCut(s: string, from: nat, p: nat, r: nat)
    requires Shape(s, r) && CutsFirst(s, from, p, r) && p + 7 > r
    ensures LastPiece(s, p + 7) == Tail(s, r, BlocksBefore(s, from, r))
  {
    if p == r {
      FirstHasNoBlockBefore(s, from, p);
      NoMoreCuts(s, r, r + 7);
    } else {
      CutAcross(s, from, p, r);
      NoMoreCuts(s, r, r + 1);
    }
  }

  lemma FirstCut(s: string, r: nat, from: nat) returns (p: nat)
    requires At(s, r) && from <= r
    ensures CutsFirst(s, from, p, r) && LastPiece(s, from) == LastPiece(s, p + 7)
  {
    p := Find(s, from).value;
    CutOnce(s, from);
  }

  lemma {:induction false} LastPieceOf(s: string, r: nat, from: nat)
    requires Shape(s, r) && from <= r
    ensures LastPiece(s, from) == Tail(s, r, BlocksBefore(s, from, r))
    decreases r - from
  {
    var p := FirstCut(s, r, from);
    if p + 7 <= r {
      CutBefore(s, from, p, r);
      LastPieceOf(s, r, p + 7);
    } else {
      LastCut(s, from, p, r);
    }
  }

  lemma {:induction false} DigitsAreDigits(s: string, i: nat)
    requires Digits(s).Some? && i < |s|
    ensures IsDigit(s[i]) || s[i] == '_'
    decreases |s|
  {
    if |s| > 1 && i < |s| - 1 {
      if s[|s| - 2] != '_' {
        DigitsAreDigits(s[..|s| - 1], i);
      } else if i < |s| - 2 {
        DigitsAreDigits(s[..|s| - 2], i);
      }
    }
  }

  lemma DigitReads(d: nat)
    requires d < 10
    ensures IsDigit(Digit(d)) && DigitValue(Digit(d)) == d
  {
  }

  lemma OneMoreDigit(s: string, c: char, n: nat)
    requires Digits(s) == Some(n) && IsDigit(c)
    ensures Digits(s + [c]) == Some(10 * n + DigitValue(c))
  {
    assert (s + [c])[..|s|] == s;
  }

  lemma {:induction false} DigitsOfDecimal(n: nat)
    ensures Digits(DecimalNat(n)) == Some(n)
  {
    if n < 10 {
      DigitReads(n);
    } else {
      var q, d := n / 10, n % 10;
      DigitReads(d);
      DigitsOfDecimal(q);
      OneMoreDigit(DecimalNat(q), Digit(d), q);
      assert n == 10 * q + d;
    }
  }

  lemma NothingToStrip(s: string)
    requires s != "" && !IsSpace(s[0]) && !IsSpace(s[|s| - 1])
    ensures Stripped(s) == s
  {
  }

  lemma {:induction false} IntOfDigits(d: string, n: int)
    requires d != "" && IsDigit(d[0]) && Digits(d).Some? && Digits(d).value == n
    ensures PyInt(d) == Some(n) && PyInt("-" + d) == Some(-n)
  {
    NothingToStrip(d);
    NothingToStrip("-" + d);
    assert ("-" + d)[1..] == d;
  }

  lemma IntOfDecimal(n: int)
    ensures PyInt(Decimal(n)) == Some(n)
  {
    var size := if n < 0 then -n else n;
    var d := DecimalNat(size);
    DigitsOfDecimal(size);
    assert d[0] in d;
    IntOfDigits(d, size);
  }

  lemma NoInt(s: string)
    requires |s| > 1 && s[0] == 'e' && !IsSpace(s[|s| - 1])
    ensures PyInt(s).None?
  {
    if Digits(s).Some? {
      DigitsAreDigits(s, 0);
    }
    assert Stripped(s) == s;
  }

  lemma {:induction false} BlocksOfPrefix(a: string, b: string, e: nat)
    requires e <= |a|
    ensures BlocksBefore(a + b, 0, e) == BlocksBefore(a, 0, e)
  {
    if e >= 6 {
      assert (a + b)[e - 6..e] == a[e - 6..e];
      BlocksOfPrefix(a, b, e - 6);
    }
  }

  lemma GeneratedShape(runId: string, n: int)
    ensures var s, r := GenerateEventId(runId, n), |runId|;
            Shape(s, r) && s[r + 7..] == Decimal(n) && s[r + 1..] == "event_" + Decimal(n)
  {
    var s, d, r := GenerateEventId(runId, n), Decimal(n), |runId|;
    assert s == runId + (SEPARATOR + d);
    assert s[r..r + 7] == SEPARATOR;
    assert s[r + 7..] == d;
    var digits := DecimalNat(if n < 0 then -n else n);
    forall i | r + 7 <= i < |s| ensures s[i] == '-' || IsDigit(s[i]) {
      assert s[i] == d[i - r - 7];
      assert s[i] == '-' || s[i] in digits;
    }
  }

  lemma BrokenTail(n: int)
    ensures PyInt("event_" + Decimal(n)).None?
  {
    var digits := DecimalNat(if n < 0 then -n else n);
    assert digits[|digits| - 1] in digits;
    NoInt("event_" + Decimal(n));
  }

  /** The sequence is read back exactly when the run id ends in an even number of consecutive "_event"
      blocks; otherwise the split swallows the separator's first underscore and the result is 0. */
  lemma {:induction false} RoundTripIff(runId: string, n: int)
    ensures ExtractEventSequence(GenerateEventId(runId, n)) == if TrailingBlocks(runId) % 2 == 0 then n else 0
  {
    var s, r := GenerateEventId(runId, n), |runId|;
    GeneratedShape(runId, n);
    LastPieceOf(s, r, 0);
    assert s == runId + (SEPARATOR + Decimal(n));
    BlocksOfPrefix(runId, SEPARATOR + Decimal(n), r);
    IntOfDecimal(n);
    BrokenTail(n);
  }

  lemma LastCharacterDecides(runId: string)
    requires runId != "" && runId[|runId| - 1] != 't'
    ensures TrailingBlocks(runId) == 0
  {
    if |runId| >= 6 {
      assert runId[|runId| - 6..|runId|][5] == runId[|runId| - 1];
    }
  }

  /** A UUID, whose characters are hexadecimal digits and dashes, always round-trips. */
  lemma UuidRoundTrips(runId: string, n: int)
    requires forall c :: c in runId ==> IsDigit(c) || 'a' <= c <= 'f' || c == '-'
    ensures ExtractEventSequence(GenerateEventId(runId, n)) == n
  {
    RoundTripIff(runId, n);
    if runId != "" {
      assert runId[|runId| - 1] in runId;
      LastCharacterDecides(runId);
    }
  }

  /** A run id that ends in one "_event" loses its sequence. */
  lemma EventSuffixLosesSequence()
    ensures GenerateEventId("run_event", 5) == "run_event_event_5"
    ensures ExtractEventSequence("run_event_event_5") == 0
  {
    var runId := "run_event";
    assert Digit(5) == '5';
    assert DecimalNat(5) == "5";
    assert runId + SEPARATOR + "5" == "run_event_event_5";
    assert runId[3..9] == "_event";
    assert BlocksBefore(runId, 0, 3) == 0;
    assert TrailingBlocks(runId) == 1;
    RoundTripIff(runId, 5);
  }
}
