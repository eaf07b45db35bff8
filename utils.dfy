/** The list and string helpers of the `ezvk::utils` namespace, and `std::find_if` as the searches use it. */
module Utils {
  import opened Wrappers

  /** `std::find_if`: the position of the first element that satisfies `p`, or `None` for the end iterator. */
  function FindIf<T>(s: seq<T>, p: T -> bool): (r: Option<nat>)
    ensures r.Some? ==> r.value < |s| && p(s[r.value]) && forall j :: 0 <= j < r.value ==> !p(s[j])
    ensures r.None? <==> forall j :: 0 <= j < |s| ==> !p(s[j])
  {
    if |s| == 0 then None
    else if p(s[0]) then Some(0)
    else match FindIf(s[1..], p)
      case None => None
      case Some(k) => assert s[1..][k] == s[k + 1]; Some(k + 1)
  }

  /** `std::vector::at`: the element at `pos`, or the `std::out_of_range` error. */
  function At<T>(s: seq<T>, pos: nat): (r: Result<T>)
    ensures r.Ok? <==> pos < |s|
    ensures r.Ok? ==> r.value == s[pos]
    ensures r.Err? ==> r.error == OutOfRange
  {
    if pos < |s| then Ok(s[pos]) else Err(OutOfRange)
  }

  /** The order-preserving subsequence of the elements of `s` that satisfy `p`. */
  function Filter<T>(s: seq<T>, p: T -> bool): seq<T>
  {
    if |s| == 0 then []
    else Filter(s[..|s| - 1], p) + (if p(s[|s| - 1]) then [s[|s| - 1]] else [])
  }

  /** Every element of `s` that satisfies `p` is kept as often as it occurs; every other one is dropped. */
  lemma {:induction false} FilterCount<T>(s: seq<T>, p: T -> bool, x: T)
    ensures multiset(Filter(s, p))[x] == if p(x) then multiset(s)[x] else 0
  {
    if |s| > 0 {
      var init, last := s[..|s| - 1], s[|s| - 1];
      assert s == init + [last];
      FilterCount(init, p, x);
    }
  }

  /** The filter keeps exactly the satisfying elements, never lengthens, and is empty iff nothing satisfies `p`. */
  lemma {:induction false} FilterShape<T>(s: seq<T>, p: T -> bool)
    ensures |Filter(s, p)| <= |s|
    ensures forall x :: x in Filter(s, p) <==> x in s && p(x)
    ensures Filter(s, p) == [] <==> forall i :: 0 <= i < |s| ==> !p(s[i])
  {
    if |s| > 0 {
      var init, last := s[..|s| - 1], s[|s| - 1];
      assert s == init + [last];
      FilterShape(init, p);
    }
  }

  /** Filtering distributes over concatenation. */
  lemma {:induction false} FilterConcat<T>(a: seq<T>, b: seq<T>, p: T -> bool)
    ensures Filter(a + b, p) == Filter(a, p) + Filter(b, p)
    decreases |b|
  {
    if |b| == 0 {
      assert a + b == a;
    } else {
      var init := b[..|b| - 1];
      assert (a + b)[..|a + b| - 1] == a + init;
      assert (a + b)[|a + b| - 1] == b[|b| - 1];
      FilterConcat(a, init, p);
    }
  }

  /** When something satisfies `p`, the filter's front is the element `std::find_if` finds. */
  lemma {:induction false} FilterFront<T>(s: seq<T>, p: T -> bool)
    requires FindIf(s, p).Some?
    ensures Filter(s, p) != [] && Filter(s, p)[0] == s[FindIf(s, p).value]
    decreases |s|
  {
    var init, last := s[..|s| - 1], s[|s| - 1];
    var k := FindIf(s, p).value;
    if FindIf(init, p).Some? {
      FilterFront(init, p);
      var i := FindIf(init, p).value;
      assert init[i] == s[i];
      assert forall j :: 0 <= j < i ==> init[j] == s[j];
      assert k == i;
    } else {
      FilterShape(init, p);
      assert k == |s| - 1;
    }
  }

  /** `find_all_that_satisfy`: collects, in order, the elements for which `pred` holds. */
  method FindAllThatSatisfy<T>(all: seq<T>, pred: T -> bool) returns (satisfy: seq<T>)
    ensures satisfy == Filter(all, pred)
  {
    satisfy := [];
    var i := 0;
    while i < |all|
      invariant 0 <= i <= |all|
      invariant satisfy == Filter(all[..i], pred)
    {
      assert all[..i + 1][..i] == all[..i];
      if pred(all[i]) {
        satisfy := satisfy + [all[i]];
      }
      i := i + 1;
    }
    assert all[..|all|] == all;
  }

  /** Some haystack element projects onto `x`. */
  predicate Found<A, X(==)>(all: seq<A>, proj: A -> X, x: X)
  {
    exists i :: 0 <= i < |all| && proj(all[i]) == x
  }

  /** The test `find_all_missing` applies to each searched-for element. */
  function NotFound<A, X(==)>(all: seq<A>, proj: A -> X): X -> bool
  {
    x => !Found(all, proj, x)
  }

  /** What `find_all_missing` returns: the searched-for elements no haystack element projects onto. */
  function Missing<A, X(==)>(all: seq<A>, find: seq<X>, proj: A -> X): seq<X>
  {
    Filter(find, NotFound(all, proj))
  }

  /** `find_all_missing`: for each searched-for element, a `std::find_if` over the haystack; unmatched ones are kept. */
  method FindAllMissing<A, X(==)>(all: seq<A>, find: seq<X>, proj: A -> X) returns (missing: seq<X>)
    ensures missing == Missing(all, find, proj)
  {
    missing := [];
    var i := 0;
    while i < |find|
      invariant 0 <= i <= |find|
      invariant missing == Filter(find[..i], NotFound(all, proj))
    {
      assert find[..i + 1][..i] == find[..i];
      var x := find[i];
      var hit := FindIf(all, (a: A) => proj(a) == x);
      assert hit.Some? <==> Found(all, proj, x);
      if hit.Some? {
        i := i + 1;
        continue;
      }
      missing := missing + [x];
      i := i + 1;
    }
    assert find[..|find|] == find;
  }

  /** Each searched-for element is reported exactly as often as it was asked for if nothing matches it, else never. */
  lemma MissingCount<A, X>(all: seq<A>, find: seq<X>, proj: A -> X, x: X)
    ensures multiset(Missing(all, find, proj))[x] == if Found(all, proj, x) then 0 else multiset(find)[x]
  {
    FilterCount(find, NotFound(all, proj), x);
  }

  /** The result holds only searched-for, unmatched elements; it is empty iff every one was found; and it is no longer than the search range. */
  lemma MissingShape<A, X>(all: seq<A>, find: seq<X>, proj: A -> X)
    ensures forall x :: x in Missing(all, find, proj) <==> x in find && !Found(all, proj, x)
    ensures Missing(all, find, proj) == [] <==> forall i :: 0 <= i < |find| ==> Found(all, proj, find[i])
    ensures |Missing(all, find, proj)| <= |find|
  {
    FilterShape(find, NotFound(all, proj));
  }

  // ---------------------------------------------------------------------------------------------
  // trim_leading_trailing_spaces

  /** `std::string::npos`, the largest `size_t`. */
  const NPOS: int := 0xFFFF_FFFF_FFFF_FFFF
  const SIZE_MODULUS: int := 0x1_0000_0000_0000_0000

  /** A member of the character set `" \t\n"`. */
  predicate IsSpace(c: char)
  {
    c == ' ' || c == '\t' || c == '\n'
  }

  predicate AllSpace(s: string)
  {
    forall i :: 0 <= i < |s| ==> IsSpace(s[i])
  }

  /** The number of whitespace characters before the first other one (all of them if there is none). */
  function LeadingSpaces(s: string): (n: nat)
    ensures n <= |s| && AllSpace(s[..n]) && (n < |s| ==> !IsSpace(s[n]))
  {
    if |s| == 0 || !IsSpace(s[0]) then 0 else 1 + LeadingSpaces(s[1..])
  }

  /** The number of whitespace characters after the last other one (all of them if there is none). */
  function TrailingSpaces(s: string): (n: nat)
    ensures n <= |s| && AllSpace(s[|s| - n..]) && (n < |s| ==> !IsSpace(s[|s| - n - 1]))
  {
    if |s| == 0 || !IsSpace(s[|s| - 1]) then 0 else 1 + TrailingSpaces(s[..|s| - 1])
  }

  /** `find_first_not_of(" \t\n")`: an index, or `NPOS`. */
  function FindFirstNotOf(s: string): int
  {
    match FindIf(s, (c: char) => !IsSpace(c))
    case Some(i) => i
    case None => NPOS
  }

  /** `find_last_not_of(" \t\n")`: an index, or `NPOS`. */
  function FindLastNotOf(s: string): int
  {
    if |s| == 0 then NPOS
    else if !IsSpace(s[|s| - 1]) then |s| - 1
    else FindLastNotOf(s[..|s| - 1])
  }

  lemma {:induction false} FindFirstNotOfIsLeading(s: string)
    ensures FindFirstNotOf(s) == if LeadingSpaces(s) < |s| then LeadingSpaces(s) else NPOS
  {
    var n := LeadingSpaces(s);
    assert forall j :: 0 <= j < n ==> s[..n][j] == s[j];
  }

  lemma {:induction false} FindLastNotOfIsTrailing(s: string)
    ensures FindLastNotOf(s) == if TrailingSpaces(s) < |s| then |s| - TrailingSpaces(s) - 1 else NPOS
  {
    if |s| > 0 && IsSpace(s[|s| - 1]) {
      FindLastNotOfIsTrailing(s[..|s| - 1]);
    }
  }

  /** Unless the string is all whitespace, its leading and trailing whitespace runs leave a non-empty middle. */
  lemma {:induction false} SpacesBound(s: string)
    ensures AllSpace(s) <==> LeadingSpaces(s) == |s|
    ensures AllSpace(s) <==> TrailingSpaces(s) == |s|
    ensures !AllSpace(s) ==> LeadingSpaces(s) + TrailingSpaces(s) < |s|
  {
    var n, m := LeadingSpaces(s), TrailingSpaces(s);
    if n == |s| {
      assert s[..n] == s;
    }
    if m == |s| {
      assert s[|s| - m..] == s;
    }
    forall j | |s| - m <= j < |s|
      ensures IsSpace(s[j])
    {
      assert s[j] == s[|s| - m..][j - (|s| - m)];
    }
  }

  /** `std::string::substr(pos, count)` for a position that is not past the end. */
  function Substr(s: string, pos: nat, count: nat): string
    requires pos <= |s|
  {
    if count <= |s| - pos then s[pos..pos + count] else s[pos..]
  }

  /** The `size_t` value of `(pos_last - pos_first) + 1`. */
  function SubstrCount(first: int, last: int): int
  {
    ((last - first) % SIZE_MODULUS + 1) % SIZE_MODULUS
  }

  /** Without wrap-around the count is the plain difference plus one. */
  lemma SubstrCountNoWrap(first: int, last: int)
    requires 0 <= last - first < NPOS
    ensures SubstrCount(first, last) == last - first + 1
  {
    var d := last - first;
    assert d % SIZE_MODULUS == d;
    assert (d + 1) % SIZE_MODULUS == d + 1;
  }

  /**
   * `trim_leading_trailing_spaces` as the source computes it, with `size_t` arithmetic on `npos`.
   * When the input holds a character outside `" \t\n"`, the result is the input with its leading and
   * trailing whitespace removed; a non-empty all-whitespace input yields its first character.
   */
  function TrimAsWritten(input: string): (r: string)
    requires |input| < NPOS
    ensures |input| == 0 ==> r == ""
    ensures |input| > 0 && AllSpace(input) ==> r == input[..1]
    ensures !AllSpace(input) ==> r == input[LeadingSpaces(input)..|input| - TrailingSpaces(input)]
  {
    if |input| == 0 then ""
    else
      var first := FindFirstNotOf(input);
      var last := FindLastNotOf(input);
      FindFirstNotOfIsLeading(input);
      FindLastNotOfIsTrailing(input);
      SpacesBound(input);
      SubstrCountNoWrap(first, last);
      var count := SubstrCount(first, last);
      Substr(input, if first != NPOS then first else 0, count)
  }

  /** The trimming the helper evidently intends: an all-whitespace input trims to the empty string. */
  function Trim(input: string): (r: string)
    requires |input| < NPOS
    ensures r == "" || (!IsSpace(r[0]) && !IsSpace(r[|r| - 1]))
    ensures AllSpace(input) ==> r == ""
    ensures !AllSpace(input) ==> r == input[LeadingSpaces(input)..|input| - TrailingSpaces(input)]
  {
    var first := FindFirstNotOf(input);
    var last := FindLastNotOf(input);
    FindFirstNotOfIsLeading(input);
    FindLastNotOfIsTrailing(input);
    SpacesBound(input);
    if first == NPOS then "" else input[first..last + 1]
  }

  /** Trimming an already trimmed string changes nothing. */
  lemma TrimIdempotent(input: string)
    requires |input| < NPOS
    ensures Trim(Trim(input)) == Trim(input)
  {
    var r := Trim(input);
    if r != "" {
      assert LeadingSpaces(r) == 0;
      assert TrailingSpaces(r) == 0;
    }
  }

  /** The source keeps one whitespace character of an all-whitespace input, which the intended trim drops. */
  lemma TrimAsWrittenKeepsWhitespace()
    ensures TrimAsWritten("  ") == " "
    ensures Trim("  ") == ""
  {
    assert AllSpace("  ");
  }

  // ---------------------------------------------------------------------------------------------
  // sizeof_container

  /** `sizeof(value_type) * size()` for a container whose elements occupy `elemSize` bytes each. */
  function SizeofContainer<T>(elemSize: nat, data: seq<T>): nat
  {
    elemSize * |data|
  }

  /** The bytes of a sequence of elements, one after the other (the object representation of a contiguous array). */
  function Flatten(s: seq<seq<bv8>>): seq<bv8>
  {
    if |s| == 0 then [] else Flatten(s[..|s| - 1]) + s[|s| - 1]
  }

  predicate AllOfSize(s: seq<seq<bv8>>, elemSize: nat)
  {
    forall i :: 0 <= i < |s| ==> |s[i]| == elemSize
  }

  /** `sizeof_container` is the number of bytes the elements occupy when laid out contiguously. */
  lemma {:induction false} FlattenLength(s: seq<seq<bv8>>, elemSize: nat)
    requires AllOfSize(s, elemSize)
    ensures |Flatten(s)| == SizeofContainer(elemSize, s)
  {
    if |s| > 0 {
      FlattenLength(s[..|s| - 1], elemSize);
      assert elemSize * |s| == elemSize * (|s| - 1) + elemSize;
    }
  }

  /** Byte `k` of element `i` sits at offset `elemSize * i + k` of the contiguous layout. */
  lemma {:induction false} FlattenAt(s: seq<seq<bv8>>, elemSize: nat, i: nat, k: nat)
    requires AllOfSize(s, elemSize) && i < |s| && k < elemSize
    ensures elemSize * i + k < |Flatten(s)| && Flatten(s)[elemSize * i + k] == s[i][k]
    decreases |s|
  {
    var n := |s| - 1;
    var init := s[..n];
    assert AllOfSize(init, elemSize);
    FlattenLength(init, elemSize);
    assert Flatten(s) == Flatten(init) + s[n];
    assert |Flatten(init)| == elemSize * n;
    if i < n {
      assert init[i] == s[i];
      FlattenAt(init, elemSize, i, k);
    }
  }
}
