/** Values and sequence facts every module uses. */
module Common {
  datatype Option<+T> = None | Some(value: T)
  datatype Result<+T> = Ok(value: T) | Err(error: string)

  const MAX_SAFE_INTEGER: nat := 9007199254740991

  type byte = x: int | 0 <= x < 256
  type Bytes = seq<byte>

  lemma SplitLast<T>(s: seq<T>)
    requires s != []
    ensures s == s[..|s| - 1] + [s[|s| - 1]]
  {}

  lemma SplitAt<T>(s: seq<T>, i: nat)
    requires i < |s|
    ensures s[..i + 1] == s[..i] + [s[i]]
  {}

  lemma Regroup<T>(a: seq<T>, b: seq<T>, c: seq<T>)
    ensures a + b + c == a + (b + c)
  {}

  lemma WholePrefix<T>(s: seq<T>)
    ensures s[..|s|] == s
  {}

  /** A subset is no larger, and fills the set only if it is the set. */
  lemma {:induction false} SubsetSize<T>(a: set<T>, b: set<T>)
    requires a <= b
    ensures |a| <= |b| && (|a| == |b| ==> a == b)
  {
    if a != {} {
      var x :| x in a;
      SubsetSize(a - {x}, b - {x});
      if |a| == |b| { assert a == (a - {x}) + {x} && b == (b - {x}) + {x}; }
    }
  }

  function Elements<T>(s: seq<T>): set<T> { set x | x in s }

  lemma {:induction false} ElementsSize<T>(s: seq<T>)
    ensures |Elements(s)| <= |s|
    ensures (forall i, j :: 0 <= i < j < |s| ==> s[i] != s[j]) ==> |Elements(s)| == |s|
  {
    if s != [] {
      var front, last := s[..|s| - 1], s[|s| - 1];
      ElementsSize(front);
      SplitLast(s);
      assert Elements(s) == Elements(front) + {last};
    }
  }

  /** Distinct elements of a list are no more than the list has. */
  lemma DistinctFits<T>(a: seq<T>, b: seq<T>)
    requires (forall i, j :: 0 <= i < j < |a| ==> a[i] != a[j]) && forall x :: x in a ==> x in b
    ensures |a| <= |b|
  {
    ElementsSize(a);
    ElementsSize(b);
    SubsetSize(Elements(a), Elements(b));
  }
}
