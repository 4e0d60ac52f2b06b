/** cns.go: the national health card number, 15 ASCII digits whose weighted
    sum (weights 15 down to 1) is a multiple of 11, written either raw or in
    groups of 3, 4, 4 and 4 separated by one whitespace byte. */
module Cns {
  import opened Bytes
  import opened Utils
  import opened Checksum
  import opened Errors

  /** `unicode.IsSpace` on a byte value: tab, LF, VT, FF, CR, space, NEL
      (0x85) and NBSP (0xA0). */
  predicate IsSpace(b: Byte) {
    (9 <= b as int <= 13) || b == ' ' || b as int == 0x85 || b as int == 0xA0
  }

  /** `isFirstCNSDigitValid`: the card kinds '1', '2', '7', '8' and '9'. */
  predicate FirstDigitValid(d: Byte) {
    d == '1' || d == '2' || d == '7' || d == '8' || d == '9'
  }

  /** The weighted sum of the payload digits from index i on, given as d:
      digit k weighs 15 - k. */
  function Sum(d: ByteString, i: nat): int
    requires i + |d| == 15
    decreases |d|
  {
    if d == [] then 0 else WrapSub(d[0], '0') * (15 - i) + Sum(d[1..], i + 1)
  }

  /** The sum from index k of a whole payload: digit k's weighted value
      and the sum from k + 1. */
  lemma SumFrom(d: ByteString, k: nat)
    requires |d| == 15 && k < 15
    ensures Sum(d[k..], k) == WrapSub(d[k], '0') * (15 - k) + Sum(d[k + 1..], k + 1)
  {
    assert d[k..][1..] == d[k + 1..];
  }

  /** A digit in front adds its weighted value. */
  lemma SumPrepend(x: Byte, d: ByteString, i: nat)
    requires i + |d| == 14
    ensures Sum([x] + d, i) == WrapSub(x, '0') * (15 - i) + Sum(d, i + 1)
  {
    assert ([x] + d)[1..] == d;
  }

  /** The weights of the payload digits, 15 down to 1. */
  const Weights: seq<int> := [15, 14, 13, 12, 11, 10, 9, 8, 7, 6, 5, 4, 3, 2, 1]

  /** The sum the loop builds agrees with the positional weighted sum of
      the shared checksum, under weights 15 down to 1. */
  lemma SumIsWeighted(d: ByteString)
    requires |d| == 15
    ensures Sum(d, 0) == WeightedSum(d, Weights, 15)
  {
    WeightsDescend();
    SumSplit(d, Weights, 0);
    assert d[0..] == d;
  }

  /** Weight k is 15 - k. */
  lemma WeightsDescend()
    ensures |Weights| == 15
    ensures forall k :: 0 <= k < 15 ==> Weights[k] == 15 - k
  {
  }

  lemma {:induction false} SumSplit(d: ByteString, w: seq<int>, k: nat)
    requires |d| == 15 && |w| == 15 && k <= 15
    requires forall m :: 0 <= m < 15 ==> w[m] == 15 - m
    ensures WeightedSum(d, w, k) + Sum(d[k..], k) == WeightedSum(d, w, 15)
    decreases 15 - k
  {
    if k < 15 {
      SumSplitStep(d, w, k);
      SumSplit(d, w, k + 1);
    } else {
      assert d[k..] == [];
    }
  }

  /** Moving digit k from the loop's sum to the weighted sum keeps the total. */
  lemma SumSplitStep(d: ByteString, w: seq<int>, k: nat)
    requires |d| == 15 && |w| == 15 && k < 15 && w[k] == 15 - k
    ensures WeightedSum(d, w, k + 1) + Sum(d[k + 1..], k + 1) == WeightedSum(d, w, k) + Sum(d[k..], k)
  {
    SumFrom(d, k);
    Swap(w[k], WrapSub(d[k], '0'), 15 - k);
  }

  /** Equal weights give equal products, in either order. */
  lemma Swap(a: int, x: int, b: int)
    requires a == b
    ensures a * x == x * b
  {
  }

  /** Where the loop may meet a separator: before payload digits 3, 7, 11. */
  predicate SeparatorIndex(i: int) {
    i == 3 || i == 7 || i == 11
  }

  /** How `IsValid` ends: with a verdict, or with Go's index-out-of-range
      panic. */
  datatype Verdict = Accept | Reject | Panic

  /** How the loop of `IsValid` ends: with the payload digits it read, with
      a `return false` or with a panic. */
  datatype Scanned = Digits(payload: ByteString) | Rejected | Panicked

  /** A digit read in front of what the rest of the loop yields. */
  function Prepend(x: Byte, r: Scanned): Scanned {
    if r.Digits? then Digits([x] + r.payload) else r
  }

  /** The loop of `IsValid` from payload index i with `pad` separators
      skipped: a whitespace byte is skipped once where a separator may stand,
      and the byte then in hand must be a digit. */
  function Collect(s: ByteString, i: nat, pad: nat): (r: Scanned)
    requires i <= 15
    ensures r.Digits? ==> |r.payload| == 15 - i
    decreases 15 - i
  {
    if i == 15 then Digits([])
    else if i + pad >= |s| then Panicked
    else if IsSpace(s[i + pad]) && !SeparatorIndex(i) then Rejected
    else
      var p := if IsSpace(s[i + pad]) then pad + 1 else pad;
      if i + p >= |s| then Panicked
      else if !IsDigit(s[i + p]) then Rejected
      else Prepend(s[i + p], Collect(s, i + 1, p))
  }

  /** The final test of the loop: 15 digits whose sum is a multiple of 11. */
  predicate Accepts(r: Scanned) {
    r.Digits? && |r.payload| == 15 && Sum(r.payload, 0) % 11 == 0
  }

  /** `CNS.IsValid` as written, panic included: the 15 digits read must
      have a weighted sum that is a multiple of 11. */
  function Outcome(s: ByteString): Verdict {
    if |s| != 15 && |s| != 18 then Reject
    else if !FirstDigitValid(s[0]) then Reject
    else if Collect(s, 0, 0).Panicked? then Panic
    else if Accepts(Collect(s, 0, 0)) then Accept
    else Reject
  }

  /** What `IsValid` would answer with an index check in the loop: the
      panicking inputs are rejected. */
  predicate Valid(s: ByteString) {
    Outcome(s) == Accept
  }

  /** `CNS.IsValid`, for the inputs on which it does not panic. */
  method IsValid(cns: ByteString) returns (ok: bool)
    requires Outcome(cns) != Panic
    ensures ok == Valid(cns)
  {
    if |cns| != 15 && |cns| != 18 {
      return false;
    }
    if !FirstDigitValid(cns[0]) {
      return false;
    }
    ok := SumLoop(cns);
  }

  /** The loop of `CNS.IsValid` and the final test of its sum: `sum` holds
      the weighted digits read so far, and what the rest of the loop reads
      completes it to the sum of the whole payload. */
  method SumLoop(cns: ByteString) returns (ok: bool)
    requires !Collect(cns, 0, 0).Panicked?
    ensures ok == Accepts(Collect(cns, 0, 0))
  {
    var sum, pad := 0, 0;
    ghost var whole := Collect(cns, 0, 0);
    for i := 0 to 15
      invariant !Collect(cns, i, pad).Panicked?
      invariant Collect(cns, i, pad).Digits? == whole.Digits?
      invariant whole.Digits? ==> Sum(whole.payload, 0) == sum + Sum(Collect(cns, i, pad).payload, i)
    {
      var more, next, cur := Iteration(cns, i, pad);
      if !more {
        return false;
      }
      ghost var rest := Collect(cns, i + 1, next);
      if rest.Digits? {
        SumPrepend(cur, rest.payload, i);
      }
      sum := sum + WrapSub(cur, '0') * (15 - i);
      pad := next;
    }
    return sum % 11 == 0;
  }

  /** One pass of the loop body up to the digit test: the byte in hand,
      after a whitespace byte is skipped where a separator may stand, and
      whether the loop goes on. */
  method Iteration(cns: ByteString, i: nat, pad: nat) returns (more: bool, next: nat, cur: Byte)
    requires i < 15 && !Collect(cns, i, pad).Panicked?
    ensures !more ==> Collect(cns, i, pad) == Rejected
    ensures more ==> IsDigit(cur) && Collect(cns, i, pad) == Prepend(cur, Collect(cns, i + 1, next))
  {
    next := pad;
    cur := cns[i + next];
    if IsSpace(cur) {
      if i != 3 && i != 7 && i != 11 {
        return false, next, cur;
      }
      next := next + 1;
      assert i + next < |cns|;
      cur := cns[i + next];
    }
    assert Collect(cns, i, pad) ==
      if !IsDigit(cur) then Rejected else Prepend(cur, Collect(cns, i + 1, next));
    if !IsDigit(cur) {
      return false, next, cur;
    }
    return true, next, cur;
  }

  /** `NewCNS`: the input as it is, when valid. */
  method NewCns(s: ByteString) returns (r: Result<ByteString>)
    requires Outcome(s) != Panic
    ensures r.Ok? <==> Valid(s)
    ensures r.Ok? ==> r.value == s
    ensures r.Err? ==> r.error == ErrInvalidCNS
  {
    var valid := IsValid(s);
    if !valid {
      return Err(ErrInvalidCNS);
    }
    return Ok(s);
  }

  /** Where payload digit i lands in XXX XXXX XXXX XXXX. */
  function Slot(i: int): int
    requires 0 <= i < 15
  {
    i + (if i >= 3 then 1 else 0) + (if i >= 7 then 1 else 0) + (if i >= 11 then 1 else 0)
  }

  /** The 18-byte form of 15 bytes: a space at 3, 8 and 13. */
  function Format(p: ByteString): (r: ByteString)
    requires |p| == 15
    ensures |r| == 18 && r[3] == ' ' && r[8] == ' ' && r[13] == ' '
    ensures forall i :: 0 <= i < 15 ==> r[Slot(i)] == p[i]
  {
    p[..3] + ([' '] + (p[3..7] + ([' '] + (p[7..11] + ([' '] + p[11..])))))
  }

  /** The 18 bytes of `Format`, one by one. */
  lemma FormatElements(p: ByteString)
    requires |p| == 15
    ensures Format(p) ==
      [p[0], p[1], p[2], ' ', p[3], p[4], p[5], p[6], ' ', p[7], p[8], p[9], p[10], ' ', p[11], p[12], p[13], p[14]]
  {
    var r := Format(p);
    assert r[0] == p[0] && r[1] == p[1] && r[2] == p[2];
    assert r[Slot(3)] == p[3] && r[Slot(4)] == p[4] && r[Slot(5)] == p[5] && r[Slot(6)] == p[6];
    assert r[Slot(7)] == p[7] && r[Slot(8)] == p[8] && r[Slot(9)] == p[9] && r[Slot(10)] == p[10];
    assert r[Slot(11)] == p[11] && r[Slot(12)] == p[12] && r[Slot(13)] == p[13] && r[Slot(14)] == p[14];
  }

  /** What `CNS.String` returns. */
  function Canonical(s: ByteString): ByteString {
    if !Valid(s) then []
    else if |s| == 18 then s
    else if |s| == 15 then Format(s)
    else []
  }

  /** `CNS.String`: "" unless valid; a valid 18-byte input as it is; a valid
      15-byte input copied into 18 bytes with a space at 3, 8 and 13. */
  method String(cns: ByteString) returns (r: ByteString)
    requires Outcome(cns) != Panic
    ensures !Valid(cns) ==> r == []
    ensures Valid(cns) && |cns| == 18 ==> r == cns
    ensures Valid(cns) && |cns| == 15 ==> |r| == 18 && r[3] == ' ' && r[8] == ' ' && r[13] == ' '
    ensures Valid(cns) && |cns| == 15 ==> forall i :: 0 <= i < 15 ==> r[Slot(i)] == cns[i]
    ensures r == Canonical(cns)
  {
    var valid := IsValid(cns);
    if !valid {
      return [];
    }
    if |cns| == 18 {
      return cns;
    }
    ValidLength(cns);
    r := Spaced(cns);
  }

  /** The loop of `CNS.String`: `out[i]` is a space at 3, 8 and 13 and
      otherwise `cns[i - pad]`, `pad` counting the spaces written. */
  method Spaced(cns: ByteString) returns (r: ByteString)
    requires |cns| == 15
    ensures r == Format(cns)
  {
    ghost var f := Format(cns);
    var out := new Byte[18];
    var pad := 0;
    for i := 0 to 18
      invariant pad == (if i > 3 then 1 else 0) + (if i > 8 then 1 else 0) + (if i > 13 then 1 else 0)
      invariant forall j :: 0 <= j < i ==> out[j] == f[j]
    {
      if i == 3 || i == 8 || i == 13 {
        out[i] := ' ';
        pad := pad + 1;
        continue;
      }
      assert Slot(i - pad) == i;
      out[i] := cns[i - pad];
    }
    r := out[..];
  }

  // ---------------------------------------------------------------------
  // Properties of the validator

  /** `IsValid` accepts only 15 or 18 bytes opening with a card kind. */
  lemma ValidLength(s: ByteString)
    ensures Valid(s) ==> (|s| == 15 || |s| == 18) && FirstDigitValid(s[0])
  {
  }

  /** No digit is whitespace. */
  lemma DigitIsNotSpace(b: Byte)
    ensures IsDigit(b) ==> !IsSpace(b)
  {
  }

  /** The loop over bytes without whitespace reads them all. */
  lemma {:induction false} CollectRaw(s: ByteString, i: nat)
    requires i <= 15 && |s| >= 15
    requires forall k :: i <= k < 15 ==> IsDigit(s[k])
    ensures Collect(s, i, 0) == Digits(s[i..15])
    decreases 15 - i
  {
    if i < 15 {
      DigitIsNotSpace(s[i]);
      CollectRaw(s, i + 1);
      assert [s[i]] + s[i + 1..15] == s[i..15];
    }
  }

  /** Fifteen ASCII digits are valid exactly when they open with a card kind
      and their weighted sum is a multiple of 11; they never panic. */
  lemma RawDigits(p: ByteString)
    requires |p| == 15 && forall k :: 0 <= k < 15 ==> IsDigit(p[k])
    ensures Outcome(p) != Panic
    ensures Valid(p) <==> FirstDigitValid(p[0]) && WeightedSum(p, Weights, 15) % 11 == 0
  {
    SumIsWeighted(p);
    CollectRaw(p, 0);
    assert p[0..15] == p;
  }

  /** Once a separator has been skipped in a 15-byte input, the loop runs
      out of bytes before it has read 15 digits. */
  lemma {:induction false} ShiftedNeverCollects(s: ByteString, i: nat, pad: nat)
    requires i <= 14 && |s| <= 14 + pad
    ensures !Collect(s, i, pad).Digits?
    decreases 15 - i
  {
    if i + pad < |s| {
      var p := if IsSpace(s[i + pad]) then pad + 1 else pad;
      if i + p < |s| && i < 14 {
        ShiftedNeverCollects(s, i + 1, p);
      }
    }
  }

  /** The loop over a 15-byte input that reaches index i without a skip. */
  lemma {:induction false} FifteenCollect(s: ByteString, i: nat)
    requires i <= 15 && |s| == 15
    requires Collect(s, i, 0).Digits?
    ensures forall k :: i <= k < 15 ==> IsDigit(s[k])
    decreases 15 - i
  {
    if i < 15 {
      if IsSpace(s[i]) {
        if i < 14 {
          ShiftedNeverCollects(s, i + 1, 1);
        }
      } else {
        FifteenCollect(s, i + 1);
      }
    }
  }

  /** A valid 15-byte CNS has no separator: it is 15 ASCII digits. */
  lemma ValidFifteenIsDigits(s: ByteString)
    requires Valid(s) && |s| == 15
    ensures forall k :: 0 <= k < 15 ==> IsDigit(s[k])
  {
    FifteenCollect(s, 0);
  }

  /** Separators skipped before payload index i of the formatted form. */
  function Skipped(i: int): nat {
    (if i > 3 then 1 else 0) + (if i > 7 then 1 else 0) + (if i > 11 then 1 else 0)
  }

  /** The loop over the formatted form reads what the loop over the digits
      reads. */
  lemma {:induction false} CollectFormatted(s: ByteString, p: ByteString, i: nat)
    requires i <= 15 && |p| == 15 && forall k :: 0 <= k < 15 ==> IsDigit(p[k])
    requires |s| == 18 && s[3] == ' ' && s[8] == ' ' && s[13] == ' '
    requires forall k :: 0 <= k < 15 ==> s[Slot(k)] == p[k]
    ensures Collect(s, i, Skipped(i)) == Collect(p, i, 0)
    decreases 15 - i
  {
    if i < 15 {
      var x := p[i];
      assert s[Slot(i)] == x && IsDigit(x);
      DigitIsNotSpace(x);
      CollectFormatted(s, p, i + 1);
      if SeparatorIndex(i) {
        assert s[i + Skipped(i)] == ' ' && Skipped(i + 1) == Skipped(i) + 1;
      } else {
        assert Slot(i) == i + Skipped(i) && Skipped(i + 1) == Skipped(i);
      }
    }
  }

  /** Fifteen ASCII digits and their spaced form get the same verdict. */
  lemma FormattedAgrees(p: ByteString)
    requires |p| == 15 && forall k :: 0 <= k < 15 ==> IsDigit(p[k])
    ensures Outcome(Format(p)) == Outcome(p)
    ensures Valid(Format(p)) <==> Valid(p)
  {
    var s := Format(p);
    assert s[0] == p[0];
    CollectFormatted(s, p, 0);
  }

  /** The loop reads the first 15 bytes and no more when none of them is
      whitespace. */
  lemma {:induction false} CollectPrefix(s: ByteString, i: nat)
    requires i <= 15 && |s| >= 15
    requires forall k :: 0 <= k < 15 ==> !IsSpace(s[k])
    ensures Collect(s, i, 0) == Collect(s[..15], i, 0)
    ensures !Collect(s, i, 0).Panicked?
    decreases 15 - i
  {
    if i < 15 {
      assert s[..15][i] == s[i];
      CollectPrefix(s, i + 1);
    }
  }

  /** An 18-byte input without whitespace in its first 15 bytes is judged
      on those 15 bytes alone: its last three bytes are never read. */
  lemma EighteenReadsFifteen(s: ByteString)
    requires |s| == 18 && forall k :: 0 <= k < 15 ==> !IsSpace(s[k])
    ensures Outcome(s) == Outcome(s[..15])
  {
    CollectPrefix(s, 0);
  }

  /** In 18 bytes the loop never skips more separators than it has passed,
      so every read stays at index 17 or below. */
  lemma {:induction false} EighteenCollect(s: ByteString, i: nat, pad: nat)
    requires i <= 15 && |s| == 18 && pad <= Skipped(i)
    ensures !Collect(s, i, pad).Panicked?
    decreases 15 - i
  {
    if i < 15 {
      var p := if IsSpace(s[i + pad]) then pad + 1 else pad;
      if !(IsSpace(s[i + pad]) && !SeparatorIndex(i)) && IsDigit(s[i + p]) {
        EighteenCollect(s, i + 1, p);
      }
    }
  }

  /** Only a 15-byte input holding whitespace makes `IsValid` panic: a
      direct consequence of `PanicExactly`, kept because it needs no
      layout to state. */
  lemma PanicIsFifteenWithSpace(s: ByteString)
    ensures Outcome(s) == Panic ==> |s| == 15 && exists k :: 0 <= k < 15 && IsSpace(s[k])
  {
    if |s| == 18 {
      EighteenCollect(s, 0, 0);
    } else if |s| == 15 && forall k :: 0 <= k < 15 ==> !IsSpace(s[k]) {
      CollectPrefix(s, 0);
    }
  }

  /** The number of separators passed before payload index i when the
      separators before payload indices 3, 7 and 11 are present as told by
      b3, b7 and b11. */
  function Skips(b3: bool, b7: bool, b11: bool, i: int): nat {
    (if b3 && i > 3 then 1 else 0) + (if b7 && i > 7 then 1 else 0) + (if b11 && i > 11 then 1 else 0)
  }

  /** The byte position of payload digit m under those separators. */
  function Place(b3: bool, b7: bool, b11: bool, m: int): int {
    m + Skips(b3, b7, b11, m + 1)
  }

  /** Whether each of the three separators is present: the byte where it
      would stand, given the separators before it, is whitespace. */
  predicate SeparatorsAre(s: ByteString, b3: bool, b7: bool, b11: bool)
    requires |s| == 15
  {
    && b3 == IsSpace(s[3])
    && b7 == IsSpace(s[7 + Skips(b3, b7, b11, 7)])
    && b11 == IsSpace(s[11 + Skips(b3, b7, b11, 11)])
  }

  /** Every payload digit from index i on that falls inside the 15 bytes
      is an ASCII digit. */
  predicate PayloadDigits(s: ByteString, b3: bool, b7: bool, b11: bool, i: int)
    requires |s| == 15 && 0 <= i
  {
    forall m :: i <= m < 15 && Place(b3, b7, b11, m) < 15 ==> IsDigit(s[Place(b3, b7, b11, m)])
  }

  /** The reference description of the inputs on which the loop of
      `IsValid` runs past the end: 15 bytes laid out as the spaced form
      XXX XXXX XXXX XXXX cut to 15 bytes. At least one of the three
      separators is present (any whitespace byte), and every payload digit
      that falls inside the 15 bytes is an ASCII digit. */
  predicate PartlySpaced(s: ByteString) {
    && |s| == 15
    && var b3 := IsSpace(s[3]);
       var b7 := IsSpace(s[7 + Skips(b3, false, false, 7)]);
       var b11 := IsSpace(s[11 + Skips(b3, b7, false, 11)]);
       && (b3 || b7 || b11)
       && PayloadDigits(s, b3, b7, b11, 0)
  }

  /** Later payload digits land on later bytes. */
  lemma PlaceGrows(b3: bool, b7: bool, b11: bool, i: int, m: int)
    requires i <= m
    ensures Place(b3, b7, b11, i) <= Place(b3, b7, b11, m)
  {
  }

  /** Once the payload digit at i falls outside the input, so do all later ones. */
  lemma PayloadBeyond(s: ByteString, b3: bool, b7: bool, b11: bool, i: int)
    requires |s| == 15 && 0 <= i && Place(b3, b7, b11, i) >= 15
    ensures PayloadDigits(s, b3, b7, b11, i)
  {
    forall m | i <= m < 15
      ensures Place(b3, b7, b11, m) >= 15
    {
      PlaceGrows(b3, b7, b11, i, m);
    }
  }

  /** One step of the scan, seen only for whether it panics. */
  lemma ScanStep(s: ByteString, i: nat, pad: nat)
    requires i < 15
    ensures Collect(s, i, pad).Panicked? <==>
      || i + pad >= |s|
      || (&& !(IsSpace(s[i + pad]) && !SeparatorIndex(i))
          && var p := if IsSpace(s[i + pad]) then pad + 1 else pad;
             i + p >= |s| || (IsDigit(s[i + p]) && Collect(s, i + 1, p).Panicked?))
  {
  }

  /** The skips after payload index i follow what the scan sees there. */
  lemma SkipStep(s: ByteString, b3: bool, b7: bool, b11: bool, i: nat)
    requires |s| == 15 && i < 15 && SeparatorsAre(s, b3, b7, b11)
    requires i + Skips(b3, b7, b11, i) < 15
    ensures Skips(b3, b7, b11, i + 1) ==
      if SeparatorIndex(i) && IsSpace(s[i + Skips(b3, b7, b11, i)])
      then Skips(b3, b7, b11, i) + 1 else Skips(b3, b7, b11, i)
  {
  }

  /** The payload digits from i on are the one at i and those after it. */
  lemma PayloadStep(s: ByteString, b3: bool, b7: bool, b11: bool, i: int)
    requires |s| == 15 && 0 <= i < 15 && Place(b3, b7, b11, i) < 15
    ensures PayloadDigits(s, b3, b7, b11, i) <==>
      IsDigit(s[Place(b3, b7, b11, i)]) && PayloadDigits(s, b3, b7, b11, i + 1)
  {
  }

  /** Whether the scan from payload index i panics agrees with the reference. */
  predicate PanicAgrees(s: ByteString, b3: bool, b7: bool, b11: bool, i: nat)
    requires |s| == 15 && i <= 15
  {
    Collect(s, i, Skips(b3, b7, b11, i)).Panicked? <==>
      Skips(b3, b7, b11, 15) >= 1 && PayloadDigits(s, b3, b7, b11, i)
  }

  /** The scan agrees with the reference where it stops: at the end of the
      payload, or where the byte it wants lies past the end of the input. */
  lemma PanicStop(s: ByteString, b3: bool, b7: bool, b11: bool, i: nat)
    requires |s| == 15 && i <= 15 && SeparatorsAre(s, b3, b7, b11)
    requires i + Skips(b3, b7, b11, i) <= 15
    requires i == 15 || i + Skips(b3, b7, b11, i) == 15 || Place(b3, b7, b11, i) >= 15
    ensures PanicAgrees(s, b3, b7, b11, i)
  {
    var pad := Skips(b3, b7, b11, i);
    if i < 15 {
      PlaceGrows(b3, b7, b11, i + 1, 15);
      PlaceGrows(b3, b7, b11, i, i + 1);
      PayloadBeyond(s, b3, b7, b11, i);
      if i + pad < 15 {
        SkipStep(s, b3, b7, b11, i);
        ScanStep(s, i, pad);
      }
    }
  }

  /** If the scan agrees with the reference from payload index i + 1, it
      agrees from i. */
  lemma PanicStep(s: ByteString, b3: bool, b7: bool, b11: bool, i: nat)
    requires |s| == 15 && i < 15 && SeparatorsAre(s, b3, b7, b11)
    requires i + Skips(b3, b7, b11, i) < 15 && Place(b3, b7, b11, i) < 15
    requires PanicAgrees(s, b3, b7, b11, i + 1)
    ensures PanicAgrees(s, b3, b7, b11, i)
  {
    SkipStep(s, b3, b7, b11, i);
    ScanStep(s, i, Skips(b3, b7, b11, i));
    PayloadStep(s, b3, b7, b11, i);
  }

  /** The scan from payload index i, with the separators before i skipped,
      panics exactly when some separator is present and every payload digit
      from i on that falls inside the input is a digit. */
  lemma {:induction false} PanicScan(s: ByteString, b3: bool, b7: bool, b11: bool, i: nat)
    requires |s| == 15 && i <= 15 && SeparatorsAre(s, b3, b7, b11)
    requires i + Skips(b3, b7, b11, i) <= 15
    ensures PanicAgrees(s, b3, b7, b11, i)
    decreases 15 - i
  {
    if i == 15 || i + Skips(b3, b7, b11, i) == 15 || Place(b3, b7, b11, i) >= 15 {
      PanicStop(s, b3, b7, b11, i);
    } else {
      PanicScan(s, b3, b7, b11, i + 1);
      PanicStep(s, b3, b7, b11, i);
    }
  }

  /** `IsValid` panics exactly on the partly spaced 15-byte inputs whose
      first digit is allowed. */
  lemma PanicExactly(s: ByteString)
    ensures Outcome(s) == Panic <==> PartlySpaced(s) && FirstDigitValid(s[0])
  {
    if |s| == 18 {
      EighteenCollect(s, 0, 0);
    } else if |s| == 15 {
      var b3 := IsSpace(s[3]);
      var b7 := IsSpace(s[7 + Skips(b3, false, false, 7)]);
      var b11 := IsSpace(s[11 + Skips(b3, b7, false, 11)]);
      assert SeparatorsAre(s, b3, b7, b11);
      PanicScan(s, b3, b7, b11, 0);
      assert PanicAgrees(s, b3, b7, b11, 0);
    }
  }

  /** Digits from index i + pad to the end of a string 14 + pad bytes long
      take the loop past the end. */
  lemma {:induction false} ShiftedDigitsPanic(s: ByteString, i: nat, pad: nat)
    requires |s| == 14 + pad && i + pad <= |s|
    requires forall k :: i + pad <= k < |s| ==> IsDigit(s[k])
    ensures Collect(s, i, pad) == Panicked
    decreases 15 - i
  {
    if i + pad < |s| {
      DigitIsNotSpace(s[i + pad]);
      ShiftedDigitsPanic(s, i + 1, pad);
    }
  }

  /** The formatted form with only its first separator, 15 bytes long,
      makes `IsValid` index `cns[15]`: Go panics instead of answering. */
  lemma SeparatedFifteenPanics(s: ByteString)
    requires |s| == 15 && FirstDigitValid(s[0]) && IsDigit(s[1]) && IsDigit(s[2]) && IsSpace(s[3])
    requires forall k :: 4 <= k < 15 ==> IsDigit(s[k])
    ensures Outcome(s) == Panic
  {
    ShiftedDigitsPanic(s, 4, 1);
    assert Collect(s, 3, 0) == Panicked;
    DigitIsNotSpace(s[2]);
    assert Collect(s, 2, 0) == Panicked;
    DigitIsNotSpace(s[1]);
    assert Collect(s, 1, 0) == Panicked;
  }

  /** Unskipped digits pass an early stop of the loop through. */
  lemma {:induction false} DigitsThenStop(s: ByteString, j: nat, k: nat)
    requires j <= k < 15 && k < |s|
    requires forall m :: j <= m < k ==> IsDigit(s[m])
    requires !Collect(s, k, 0).Digits?
    ensures Collect(s, j, 0) == Collect(s, k, 0)
    decreases k - j
  {
    if j < k {
      DigitIsNotSpace(s[j]);
      DigitsThenStop(s, j + 1, k);
    }
  }

  /** A byte that is neither a digit nor whitespace after digits, such as
      the '.' of a dotted form, is rejected. */
  lemma StrayByteRejected(s: ByteString, k: nat)
    requires (|s| == 15 || |s| == 18) && 0 < k < 15
    requires forall m :: 0 <= m < k ==> IsDigit(s[m])
    requires !IsDigit(s[k]) && !IsSpace(s[k])
    ensures !Valid(s) && Outcome(s) == Reject
  {
    DigitsThenStop(s, 0, k);
  }

  /** Whitespace after digits where no separator may stand is rejected. */
  lemma MisplacedSpaceRejected(s: ByteString, k: nat)
    requires (|s| == 15 || |s| == 18) && k < 15 && !SeparatorIndex(k)
    requires forall m :: 0 <= m < k ==> IsDigit(s[m])
    requires IsSpace(s[k])
    ensures !Valid(s) && Outcome(s) == Reject
  {
    DigitsThenStop(s, 0, k);
  }

  /** What `String` returns is valid and is returned by `String` as it is. */
  lemma CanonicalIdempotent(s: ByteString)
    requires Valid(s)
    ensures Valid(Canonical(s)) && Canonical(Canonical(s)) == Canonical(s)
  {
    ValidLength(s);
    if |s| == 15 {
      ValidFifteenIsDigits(s);
      FormattedAgrees(s);
    }
  }
}

/** The cases of cns_test.go, apart from the definitions so that their
    literals stay out of the proofs about the validator. */
module CnsCases {
  import opened Bytes
  import opened Utils
  import opened Checksum
  import opened Cns

  const RandomCns: ByteString := "708521331850008"

  lemma RandomSum()
    ensures WeightedSum(RandomCns, Weights, 15) == 440
  {
    assert WeightedSum(RandomCns, Weights, 7) == 328;
  }

  lemma KnownRaw()
    ensures Valid("708521331850008")
  {
    var p: ByteString := "708521331850008";
    assert forall k :: 0 <= k < |p| ==> IsDigit(p[k]);
    RandomSum();
    RawDigits(p);
  }

  lemma RandomFormat()
    ensures Format(RandomCns) == "708 5213 3185 0008"
  {
    FormatElements(RandomCns);
  }

  lemma KnownFormatted()
    ensures Valid("708 5213 3185 0008")
  {
    var p: ByteString := "708521331850008";
    assert forall k :: 0 <= k < |p| ==> IsDigit(p[k]);
    KnownRaw();
    FormattedAgrees(p);
    RandomFormat();
  }

  lemma KnownString()
    ensures Canonical("708521331850008") == "708 5213 3185 0008"
    ensures Canonical("708 5213 3185 0008") == "708 5213 3185 0008"
  {
    KnownRaw();
    KnownFormatted();
    RandomFormat();
  }

  const WrongCns: ByteString := "708521331850001"

  lemma WrongSum()
    ensures WeightedSum(WrongCns, Weights, 15) == 433
  {
    assert WeightedSum(WrongCns, Weights, 7) == 328;
  }

  lemma WrongFormat()
    ensures Format(WrongCns) == "708 5213 3185 0001"
  {
    FormatElements(WrongCns);
  }

  lemma KnownWrongSum()
    ensures !Valid("708 5213 3185 0001")
  {
    var p: ByteString := "708521331850001";
    assert forall k :: 0 <= k < |p| ==> IsDigit(p[k]);
    WrongSum();
    RawDigits(p);
    FormattedAgrees(p);
    WrongFormat();
  }

  const SecondCns: ByteString := "174598435280018"

  lemma SecondSum()
    ensures WeightedSum(SecondCns, Weights, 15) == 561
  {
    assert WeightedSum(SecondCns, Weights, 7) == 440;
  }

  lemma KnownSecondRaw()
    ensures Valid("174598435280018")
  {
    var p: ByteString := "174598435280018";
    assert forall k :: 0 <= k < |p| ==> IsDigit(p[k]);
    SecondSum();
    RawDigits(p);
  }

  lemma KnownFirstDigit()
    ensures !Valid("008521331850008")
  {
  }

  lemma KnownDotSeparators()
    ensures !Valid("708.5213.3185.0008")
  {
    var s: ByteString := "708.5213.3185.0008";
    assert IsDigit(s[0]) && IsDigit(s[1]) && IsDigit(s[2]);
    StrayByteRejected(s, 3);
  }

  lemma KnownMisplacedSeparator()
    ensures !Valid("7085 213 3185 0008")
  {
    var s: ByteString := "7085 213 3185 0008";
    assert IsDigit(s[0]) && IsDigit(s[1]) && IsDigit(s[2]) && IsDigit(s[3]);
    MisplacedSpaceRejected(s, 4);
  }

  /** The first of the separated forms above, cut to 15 bytes. */
  lemma SpacedFifteenPanics()
    ensures Outcome("708 52133185000") == Panic
    ensures !Valid("708 52133185000")
  {
    var s: ByteString := "708 52133185000";
    assert forall k :: 4 <= k < 15 ==> IsDigit(s[k]);
    SeparatedFifteenPanics(s);
  }

  /** A single separator before payload index 7 also panics. */
  lemma SpacedAtSevenPanics()
    ensures Outcome("7085213 3185000") == Panic
  {
    var s: ByteString := "7085213 3185000";
    assert forall k :: 0 <= k < 15 && k != 7 ==> IsDigit(s[k]);
    assert PartlySpaced(s);
    PanicExactly(s);
  }

  /** A single separator before payload index 11 also panics. */
  lemma SpacedAtElevenPanics()
    ensures Outcome("70852133185 000") == Panic
  {
    var s: ByteString := "70852133185 000";
    assert forall k :: 0 <= k < 15 && k != 11 ==> IsDigit(s[k]);
    assert PartlySpaced(s);
    PanicExactly(s);
  }

  /** Two of the three separators, with the payload cut short, panic. */
  lemma TwoSeparatorsPanic()
    ensures Outcome("708 5213 318500") == Panic
  {
    var s: ByteString := "708 5213 318500";
    assert forall k :: 0 <= k < 15 && k != 3 && k != 8 ==> IsDigit(s[k]);
    assert PartlySpaced(s);
    PanicExactly(s);
  }

  /** A space where no separator may stand is rejected, not a panic. */
  lemma SpaceOffSlotRejected()
    ensures Outcome("7085 2133185000") != Panic
    ensures Outcome("7085 2133185000") == Reject
  {
    var s: ByteString := "7085 2133185000";
    assert forall m :: 0 <= m < 4 ==> IsDigit(s[m]);
    MisplacedSpaceRejected(s, 4);
  }
}
