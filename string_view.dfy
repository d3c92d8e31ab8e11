/** A model of `string_view`: a read-only view of a run of characters.
    The value of a view is the sequence of characters it shows; the class
    `View` keeps the pointer/length pair for the operations that move it. */
module StringViews {
  import opened Basics

  /** `string_view::npos`, the largest `size_t`. */
  const NPOS: nat := 0xFFFF_FFFF_FFFF_FFFF

  /** The exception `std::out_of_range` thrown by `at`, `copy` and `substr`. */
  datatype Error = OutOfRange

  function Min(a: nat, b: nat): (m: nat)
    ensures m <= a && m <= b && (m == a || m == b)
  {
    if a < b then a else b
  }

  /** `size()` (and `length()`). */
  function Size(s: seq<char>): nat
  {
    |s|
  }

  /** `empty()`: the view shows no character. */
  predicate Empty(s: seq<char>)
    ensures Empty(s) <==> Size(s) == 0
  {
    |s| == 0
  }

  /** `at(i)`: bounds-checked access. */
  function At(s: seq<char>, i: nat): (r: Result<char, Error>)
    ensures r.Failure? <==> i >= Size(s)
    ensures r.Success? ==> r.value == s[i]
  {
    if i < |s| then Success(s[i]) else Failure(OutOfRange)
  }

  /** `front()`; a hardening assertion forbids it on an empty view. */
  function Front(s: seq<char>): (c: char)
    requires !Empty(s)
    ensures At(s, 0) == Success(c)
  {
    s[0]
  }

  /** `back()`; a hardening assertion forbids it on an empty view. */
  function Back(s: seq<char>): (c: char)
    requires !Empty(s)
    ensures At(s, Size(s) - 1) == Success(c)
  {
    s[|s| - 1]
  }

  /** `memcmp` over the first `n` characters: the sign of the first difference,
      comparing characters as unsigned values. */
  function MemCmp(a: seq<char>, b: seq<char>, n: nat): (r: int)
    requires n <= |a| && n <= |b|
    ensures -1 <= r <= 1
    ensures r == 0 <==> a[..n] == b[..n]
    decreases n
  {
    if n == 0 then 0
    else if a[0] < b[0] then -1
    else if b[0] < a[0] then 1
    else
      var r := MemCmp(a[1..], b[1..], n - 1);
      assert a[..n] == [a[0]] + a[1..][..n - 1];
      assert b[..n] == [b[0]] + b[1..][..n - 1];
      r
  }

  /** `CompareImpl`: folds the lengths into the result of comparing the common
      prefix, normalising it to -1, 0 or 1. */
  function CompareImpl(lengthA: nat, lengthB: nat, compareResult: int): (r: int)
    ensures -1 <= r <= 1
    ensures r == 0 <==> compareResult == 0 && lengthA == lengthB
    ensures compareResult < 0 ==> r == -1
    ensures compareResult > 0 ==> r == 1
    ensures compareResult == 0 ==> (r < 0 <==> lengthA < lengthB)
  {
    if compareResult == 0 then
      (if lengthA > lengthB then 1 else 0) - (if lengthA < lengthB then 1 else 0)
    else if compareResult < 0 then -1 else 1
  }

  /** `compare`: a lexicographic three-way comparison. */
  function Compare(x: seq<char>, y: seq<char>): (r: int)
    ensures -1 <= r <= 1
    ensures r == 0 <==> x == y
  {
    var m := Min(|x|, |y|);
    var r := CompareImpl(|x|, |y|, if m == 0 then 0 else MemCmp(x, y, m));
    assert r == 0 && |x| == |y| ==> x == x[..m] && y == y[..m];
    r
  }

  /** How `compare` decides: by the first characters when both views are non-empty,
      otherwise the empty view is the smaller one. */
  lemma CompareUnfold(x: seq<char>, y: seq<char>)
    ensures x == [] ==> Compare(x, y) == (if y == [] then 0 else -1)
    ensures y == [] && x != [] ==> Compare(x, y) == 1
    ensures x != [] && y != [] ==>
              Compare(x, y) == (if x[0] < y[0] then -1 else if y[0] < x[0] then 1 else Compare(x[1..], y[1..]))
  {
    if x != [] && y != [] && x[0] == y[0] {
      var m := Min(|x|, |y|);
      if m > 1 {
        assert MemCmp(x, y, m) == MemCmp(x[1..], y[1..], m - 1);
      }
    }
  }

  /** `compare` is antisymmetric. */
  lemma {:induction false} CompareAntisymmetric(x: seq<char>, y: seq<char>)
    ensures Compare(x, y) == -Compare(y, x)
    decreases |x|
  {
    CompareUnfold(x, y);
    CompareUnfold(y, x);
    if x != [] && y != [] && x[0] == y[0] {
      CompareAntisymmetric(x[1..], y[1..]);
    }
  }

  /** A proper prefix is smaller than the view it starts. */
  lemma {:induction false} ComparePrefix(x: seq<char>, y: seq<char>)
    requires |x| < |y| && x == y[..|x|]
    ensures Compare(x, y) == -1
    decreases |x|
  {
    CompareUnfold(x, y);
    if x != [] {
      assert x[1..] == y[1..][..|x| - 1];
      ComparePrefix(x[1..], y[1..]);
    }
  }

  /** Two views that agree before position k and differ at k compare as their
      characters at k do. */
  lemma {:induction false} CompareFirstDifference(x: seq<char>, y: seq<char>, k: nat)
    requires k < |x| && k < |y| && x[..k] == y[..k] && x[k] < y[k]
    ensures Compare(x, y) == -1
    decreases k
  {
    CompareUnfold(x, y);
    if k > 0 {
      assert x[0] == x[..k][0] && y[0] == y[..k][0];
      assert x[1..][..k - 1] == x[..k][1..];
      assert y[1..][..k - 1] == y[..k][1..];
      CompareFirstDifference(x[1..], y[1..], k - 1);
    }
  }

  /** `compare` orders views transitively. */
  lemma {:induction false} CompareTransitive(x: seq<char>, y: seq<char>, z: seq<char>)
    requires Compare(x, y) < 0 && Compare(y, z) < 0
    ensures Compare(x, z) < 0
    decreases |x|
  {
    CompareUnfold(x, y);
    CompareUnfold(y, z);
    CompareUnfold(x, z);
    if x != [] && y != [] && z != [] && x[0] == y[0] && y[0] == z[0] {
      CompareTransitive(x[1..], y[1..], z[1..]);
    }
  }

  /** `operator==`: equal sizes and equal bytes. */
  predicate Equal(x: seq<char>, y: seq<char>)
    ensures Equal(x, y) <==> x == y
  {
    |x| == |y| && (|x| == 0 || MemCmp(x, y, |x|) == 0)
  }

  /** `operator!=` */
  predicate NotEqual(x: seq<char>, y: seq<char>)
    ensures NotEqual(x, y) <==> x != y
  {
    !Equal(x, y)
  }

  /** `operator<` */
  predicate Less(x: seq<char>, y: seq<char>)
  {
    Compare(x, y) < 0
  }

  /** `operator>` */
  predicate Greater(x: seq<char>, y: seq<char>)
  {
    Less(y, x)
  }

  /** `operator<=` */
  predicate LessEq(x: seq<char>, y: seq<char>)
  {
    !Less(y, x)
  }

  /** `operator>=` */
  predicate GreaterEq(x: seq<char>, y: seq<char>)
  {
    !Less(x, y)
  }

  /** The four ordering operators agree with `compare`. */
  lemma OperatorsAgreeWithCompare(x: seq<char>, y: seq<char>)
    ensures Less(x, y) <==> Compare(x, y) < 0
    ensures Greater(x, y) <==> Compare(x, y) > 0
    ensures LessEq(x, y) <==> Compare(x, y) <= 0
    ensures GreaterEq(x, y) <==> Compare(x, y) >= 0
  {
    CompareAntisymmetric(x, y);
  }

  /** `operator<` is a strict total order. */
  lemma LessIsStrictTotalOrder(x: seq<char>, y: seq<char>, z: seq<char>)
    ensures !Less(x, x)
    ensures Less(x, y) && Less(y, z) ==> Less(x, z)
    ensures x != y ==> Less(x, y) != Less(y, x)
  {
    if Less(x, y) && Less(y, z) {
      CompareTransitive(x, y, z);
    }
    CompareAntisymmetric(x, y);
  }

  /** `substr(pos, n)`: throws when `pos` is past the end; otherwise the
      characters from `pos`, at most `n` of them. */
  function Substr(s: seq<char>, pos: nat, n: nat): (r: Result<seq<char>, Error>)
    ensures r.Failure? <==> pos > |s|
    ensures r.Success? ==> |r.value| == Min(n, |s| - pos) && r.value <= s[pos..]
  {
    if pos > |s| then Failure(OutOfRange) else Success(s[pos..pos + Min(n, |s| - pos)])
  }

  /** Two adjacent substrings make up the substring that spans both. */
  lemma SubstrAdjacent(s: seq<char>, pos: nat, a: nat, b: nat)
    requires pos + a <= |s|
    ensures Substr(s, pos, a).value + Substr(s, pos + a, b).value == Substr(s, pos, a + b).value
  {
  }

  /** `substr()` with its default arguments is the whole view. */
  lemma SubstrWhole(s: seq<char>)
    requires |s| <= NPOS
    ensures Substr(s, 0, NPOS) == Success(s)
  {
    assert s[0..|s|] == s;
  }

  /** `at(i)` is the one-character substring at `i`. */
  lemma AtIsSubstr(s: seq<char>, i: nat)
    ensures At(s, i).Success? <==> i < |s|
    ensures i < |s| ==> Substr(s, i, 1) == Success([At(s, i).value])
  {
    if i < |s| {
      assert s[i..i + 1] == [s[i]];
    }
  }

  /** `ClippedSubstr(s, pos, n)`: like `substr` but with `pos` clipped to the
      size, so it never throws. */
  function ClippedSubstr(s: seq<char>, pos: nat, n: nat): (r: seq<char>)
    ensures pos <= |s| ==> Substr(s, pos, n) == Success(r)
    ensures pos >= |s| ==> r == []
  {
    Substr(s, Min(pos, |s|), n).value
  }

  /** The characters of a NUL-terminated C string: everything before the first NUL. */
  function CString(p: seq<char>): (s: seq<char>)
    ensures s <= p && '\0' !in s
    ensures |s| < |p| ==> p[|s|] == '\0'
  {
    if p == [] || p[0] == '\0' then []
    else
      var rest := CString(p[1..]);
      assert [p[0]] + rest <= p;
      [p[0]] + rest
  }

  /** `StrlenInternal`: walks the pointer up to the terminating NUL. */
  method StrlenInternal(p: seq<char>) returns (n: nat)
    requires '\0' in p
    ensures n == |CString(p)| && n < |p| && p[n] == '\0'
  {
    n := 0;
    while p[n] != '\0'
      invariant n < |p| && '\0' !in p[..n] && '\0' in p[n..]
      decreases |p| - n
    {
      assert p[n..] == [p[n]] + p[n + 1..];
      assert p[..n + 1] == p[..n] + [p[n]];
      n := n + 1;
    }
    CStringLength(p, n);
  }

  /** The first NUL of a string fixes the length of the C string it holds. */
  lemma CStringLength(p: seq<char>, n: nat)
    requires n < |p| && p[n] == '\0' && '\0' !in p[..n]
    ensures |CString(p)| == n
  {
  }

  /** `NullSafeStringView(p)`: the empty view for a null pointer, otherwise the
      C string at `p`. */
  function NullSafeStringView(p: Option<seq<char>>): (s: seq<char>)
    ensures p.None? ==> s == []
    ensures '\0' !in s
  {
    match p
    case None => []
    case Some(chars) => CString(chars)
  }

  /** A terminated string is read back exactly up to its terminator. */
  lemma NullSafeOfTerminated(s: seq<char>, tail: seq<char>)
    requires '\0' !in s
    ensures NullSafeStringView(Some(s + ['\0'] + tail)) == s
  {
    var p := s + ['\0'] + tail;
    assert p[..|s|] == s;
    CStringLength(p, |s|);
  }

  /** The mutable half of `string_view`: a pointer into some characters and a length. */
  class View {
    var store: seq<char>
    var ptr: nat
    var length: nat

    ghost predicate Valid()
      reads this
    {
      ptr + length <= |store|
    }

    /** The characters the view shows. */
    function Chars(): (s: seq<char>)
      reads this
      requires Valid()
      ensures |s| == length
    {
      store[ptr..ptr + length]
    }

    /** `string_view(data, len)` over a whole string. */
    constructor (s: seq<char>)
      ensures Valid() && Chars() == s
    {
      store, ptr, length := s, 0, |s|;
    }

    /** The null `string_view()`. */
    constructor Null()
      ensures Valid() && Chars() == []
    {
      store, ptr, length := [], 0, 0;
    }

    /** `remove_prefix(n)`: drops the first `n` characters from the view; the
        characters themselves are not touched. */
    method RemovePrefix(n: nat)
      requires Valid() && n <= length
      modifies this
      ensures Valid() && store == old(store)
      ensures Chars() == old(Chars())[n..]
    {
      ptr := ptr + n;
      length := length - n;
    }

    /** `remove_suffix(n)`: drops the last `n` characters from the view. */
    method RemoveSuffix(n: nat)
      requires Valid() && n <= length
      modifies this
      ensures Valid() && store == old(store) && ptr == old(ptr)
      ensures Chars() == old(Chars())[..old(length) - n]
    {
      length := length - n;
      assert Chars() == store[ptr..ptr + old(length)][..length];
    }

    /** `swap(s)`: exchanges the two views. */
    method Swap(other: View)
      requires Valid() && other.Valid()
      modifies this, other
      ensures Valid() && other.Valid()
      ensures Chars() == old(other.Chars()) && other.Chars() == old(Chars())
    {
      var s, p, l := store, ptr, length;
      store, ptr, length := other.store, other.ptr, other.length;
      other.store, other.ptr, other.length := s, p, l;
    }

    /** `copy(buf, n, pos)`: throws when `pos` is past the end; otherwise writes
        at most `n` characters starting at `pos` to `buf` and returns how many. */
    method Copy(buf: array<char>, n: nat, pos: nat) returns (r: Result<nat, Error>)
      requires Valid()
      requires pos <= length ==> Min(length - pos, n) <= buf.Length
      modifies buf
      ensures r.Failure? <==> pos > length
      ensures r.Failure? ==> buf[..] == old(buf[..])
      ensures r.Success? ==> r.value == Min(length - pos, n)
      ensures r.Success? ==> buf[..r.value] == Chars()[pos..pos + r.value]
      ensures r.Success? ==> buf[r.value..] == old(buf[r.value..])
    {
      if pos > length {
        return Failure(OutOfRange);
      }
      var rlen := Min(length - pos, n);
      if rlen > 0 {
        forall i | 0 <= i < rlen {
          buf[i] := store[ptr + pos + i];
        }
      }
      r := Success(rlen);
    }
  }
}
