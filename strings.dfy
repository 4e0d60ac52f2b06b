/** The parts of Go's `strings` package that the core calls, on byte strings. */
module Strings {
  import opened Bytes
  import opened Utils

  /** `strings.ReplaceAll(s, string(c), "")`: every occurrence of `c` is
      deleted and the other bytes keep their order.  Its properties are the
      lemmas below, kept apart so that they are only in scope where a proof
      asks for them. */
  function RemoveAll<T(==)>(s: seq<T>, c: T): seq<T>
  {
    if s == [] then []
    else if s[0] == c then RemoveAll(s[1..], c)
    else [s[0]] + RemoveAll(s[1..], c)
  }

  /** Only `c` is deleted: the other bytes all survive, and the result is no
      longer than the input. */
  lemma {:induction false} RemoveAllMembers<T>(s: seq<T>, c: T)
    ensures forall x :: x in RemoveAll(s, c) <==> x in s && x != c
    ensures |RemoveAll(s, c)| <= |s|
  {
    if s != [] {
      RemoveAllMembers(s[1..], c);
      assert s == [s[0]] + s[1..];
    }
  }

  /** A text without `c` is left as it is. */
  lemma {:induction false} RemoveAllAbsent<T>(s: seq<T>, c: T)
    requires c !in s
    ensures RemoveAll(s, c) == s
  {
    if s != [] {
      RemoveAllAbsent(s[1..], c);
    }
  }

  lemma {:induction false} RemoveAllAppend<T>(a: seq<T>, b: seq<T>, c: T)
    ensures RemoveAll(a + b, c) == RemoveAll(a, c) + RemoveAll(b, c)
  {
    if a == [] {
      assert a + b == b;
    } else {
      assert (a + b)[1..] == a[1..] + b;
      RemoveAllAppend(a[1..], b, c);
    }
  }

  /** A leading piece without `c` passes through unchanged. */
  lemma RemoveAllAfterFree<T>(x: seq<T>, y: seq<T>, c: T)
    requires c !in x
    ensures RemoveAll(x + y, c) == x + RemoveAll(y, c)
  {
    RemoveAllAppend(x, y, c);
    RemoveAllAbsent(x, c);
  }

  /** A leading byte other than `c` is kept. */
  lemma RemoveAllAfterKeep<T>(e: T, y: seq<T>, c: T)
    requires e != c
    ensures RemoveAll([e] + y, c) == [e] + RemoveAll(y, c)
  {
    assert ([e] + y)[1..] == y;
  }

  /** A leading `c` is dropped. */
  lemma RemoveAllAfterSkip<T>(y: seq<T>, c: T)
    ensures RemoveAll([c] + y, c) == RemoveAll(y, c)
  {
    assert ([c] + y)[1..] == y;
  }

  /** A separator after a piece without it is dropped. */
  lemma RemoveAllDrop<T>(x: seq<T>, y: seq<T>, c: T)
    requires c !in x
    ensures RemoveAll(x + ([c] + y), c) == x + RemoveAll(y, c)
  {
    RemoveAllAfterFree(x, [c] + y, c);
    RemoveAllAfterSkip(y, c);
  }

  /** Another byte after a piece without `c` is kept. */
  lemma RemoveAllPass<T>(x: seq<T>, e: T, y: seq<T>, c: T)
    requires c !in x && e != c
    ensures RemoveAll(x + ([e] + y), c) == x + ([e] + RemoveAll(y, c))
  {
    RemoveAllAfterFree(x, [e] + y, c);
    RemoveAllAfterKeep(e, y, c);
  }

  /** Deleting shortens the text exactly when there is something to delete. */
  lemma {:induction false} RemoveAllShrinks<T>(s: seq<T>, c: T)
    ensures c in s ==> |RemoveAll(s, c)| < |s|
    ensures c !in s ==> RemoveAll(s, c) == s
  {
    if s != [] {
      RemoveAllShrinks(s[1..], c);
      RemoveAllMembers(s[1..], c);
      assert s == [s[0]] + s[1..];
    }
  }

  /** ASCII digits are none of the separators the validators delete. */
  lemma DigitsHaveNoSeparators(a: ByteString)
    requires forall k :: 0 <= k < |a| ==> IsDigit(a[k])
    ensures '.' !in a && '-' !in a && '/' !in a && ' ' !in a
  {
  }

  /** `strings.Split(s, string(sep))`: the pieces between occurrences of
      `sep`, so one more piece than there are separators. */
  function Split<T(==)>(s: seq<T>, sep: T): (r: seq<seq<T>>)
    ensures |r| >= 1
    ensures sep !in s ==> r == [s]
  {
    if s == [] then [[]]
    else
      var rest := Split(s[1..], sep);
      if s[0] == sep then [[]] + rest
      else
        assert sep !in s ==> rest == [s[1..]] && [s[0]] + s[1..] == s;
        [[s[0]] + rest[0]] + rest[1..]
  }

  /** The inverse of `Split`: the pieces with `sep` between them. */
  function Join<T(==)>(parts: seq<seq<T>>, sep: T): seq<T>
    requires |parts| >= 1
  {
    if |parts| == 1 then parts[0] else parts[0] + [sep] + Join(parts[1..], sep)
  }

  lemma {:induction false} SplitAfterPiece<T>(p: seq<T>, t: seq<T>, sep: T)
    requires sep !in p
    ensures Split(p + [sep] + t, sep) == [p] + Split(t, sep)
  {
    if p == [] {
      assert p + [sep] + t == [sep] + t;
      assert ([sep] + t)[1..] == t;
    } else {
      assert (p + [sep] + t)[1..] == p[1..] + [sep] + t;
      SplitAfterPiece(p[1..], t, sep);
      assert [p[0]] + p[1..] == p;
    }
  }

  /** Splitting a join gives back the pieces when none of them holds `sep`. */
  lemma {:induction false} SplitJoin<T>(parts: seq<seq<T>>, sep: T)
    requires |parts| >= 1
    requires forall i :: 0 <= i < |parts| ==> sep !in parts[i]
    ensures Split(Join(parts, sep), sep) == parts
  {
    if |parts| > 1 {
      SplitJoin(parts[1..], sep);
      SplitAfterPiece(parts[0], Join(parts[1..], sep), sep);
      assert [parts[0]] + parts[1..] == parts;
    }
  }

  /** `Split` yields one piece more than there are separators. */
  lemma {:induction false} SplitLength<T>(s: seq<T>, sep: T)
    ensures |Split(s, sep)| == multiset(s)[sep] + 1
  {
    if s != [] {
      SplitLength(s[1..], sep);
      assert s == [s[0]] + s[1..];
    }
  }

  /** No piece of a `Split` holds the separator. */
  lemma {:induction false} SplitPiecesFree<T>(s: seq<T>, sep: T)
    ensures forall i :: 0 <= i < |Split(s, sep)| ==> sep !in Split(s, sep)[i]
  {
    if s != [] {
      SplitPiecesFree(s[1..], sep);
    }
  }

  /** `Join` undoes `Split`. */
  lemma {:induction false} JoinSplit<T>(s: seq<T>, sep: T)
    ensures Join(Split(s, sep), sep) == s
  {
    if s != [] {
      var rest := Split(s[1..], sep);
      JoinSplit(s[1..], sep);
      assert [s[0]] + s[1..] == s;
      if s[0] == sep {
        var q := [[]] + rest;
        assert Split(s, sep) == q;
        assert q[0] == [] && q[1..] == rest && |q| > 1;
        assert Join(q, sep) == [] + [sep] + Join(rest, sep);
      } else {
        assert Split(s, sep) == [[s[0]] + rest[0]] + rest[1..];
        JoinCons(s[0], rest[0], rest[1..], sep);
        assert [rest[0]] + rest[1..] == rest;
      }
    }
  }

  /** One more element in front of the first piece is one more in front of
      the join. */
  lemma JoinCons<T>(x: T, p0: seq<T>, rest: seq<seq<T>>, sep: T)
    ensures Join([[x] + p0] + rest, sep) == [x] + Join([p0] + rest, sep)
  {
    assert ([[x] + p0] + rest)[1..] == rest;
    assert ([p0] + rest)[1..] == rest;
    if rest != [] {
      var j := Join(rest, sep);
      assert ([x] + p0) + [sep] + j == [x] + (p0 + [sep] + j);
    }
  }

  /** Joining one more piece appends the separator and the piece, as a
      buffer that is written to piece by piece. */
  lemma {:induction false} JoinSnoc<T>(ps: seq<seq<T>>, x: seq<T>, sep: T)
    requires |ps| >= 1
    ensures Join(ps + [x], sep) == Join(ps, sep) + [sep] + x
  {
    if |ps| == 1 {
      assert (ps + [x])[1..] == [x];
    } else {
      assert (ps + [x])[1..] == ps[1..] + [x];
      JoinSnoc(ps[1..], x, sep);
    }
  }

  /** The separators of `x + [sep] + y`: those of `x`, one, and those of `y`. */
  lemma CountAround<T>(x: seq<T>, y: seq<T>, sep: T)
    ensures multiset(x + [sep] + y)[sep] == multiset(x)[sep] + 1 + multiset(y)[sep]
  {
  }

  /** `strings.ToLower` on ASCII bytes: 'A'..'Z' move to 'a'..'z'. */
  function AsciiToLower(s: ByteString): (r: ByteString)
    ensures |r| == |s|
    ensures forall i :: 0 <= i < |s| ==> !IsAlphaUpper(r[i])
    ensures forall i :: 0 <= i < |s| && !IsAlphaUpper(s[i]) ==> r[i] == s[i]
    ensures forall i :: 0 <= i < |s| && IsAlphaUpper(s[i]) ==> r[i] as int == s[i] as int + 32
  {
    seq(|s|, i requires 0 <= i < |s| =>
      if IsAlphaUpper(s[i]) then FromCode(s[i] as int + 32) else s[i])
  }

  /** `strings.ToUpper` on ASCII bytes, byte by byte with `AsciiLowerToUpper`. */
  function AsciiToUpper(s: ByteString): (r: ByteString)
    ensures |r| == |s|
    ensures forall i :: 0 <= i < |s| ==> !IsAlphaLower(r[i])
    ensures forall i :: 0 <= i < |s| && !IsAlphaLower(s[i]) ==> r[i] == s[i]
    ensures (forall i :: 0 <= i < |s| ==> !IsAlphaLower(s[i])) ==> r == s
  {
    seq(|s|, i requires 0 <= i < |s| => AsciiLowerToUpper(s[i]))
  }
}
