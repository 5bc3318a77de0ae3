/** Vocabulary shared by the models: optional values, duplicate-free sequences,
    concatenation of blocks, and the fixed-width integers of the original. */
module Base {

  datatype Option<+T> = None | Some(value: T)

  // ---------------------------------------------------------------- sequences

  ghost predicate NoDup<T>(s: seq<T>) {
    forall i, j :: 0 <= i < j < |s| ==> s[i] != s[j]
  }

  /** Position of the first occurrence of x. */
  function IndexOf<T(==)>(s: seq<T>, x: T): (i: nat)
    requires x in s
    ensures i < |s| && s[i] == x
    ensures forall j :: 0 <= j < i ==> s[j] != x
  {
    if s[0] == x then 0 else 1 + IndexOf(s[1..], x)
  }

  lemma IndexOfUnique<T>(s: seq<T>, x: T, i: nat)
    requires NoDup(s) && i < |s| && s[i] == x
    ensures IndexOf(s, x) == i
  {
  }

  lemma AppendMembers<T>(s: seq<T>, x: T)
    requires NoDup(s) && x !in s
    ensures NoDup(s + [x])
    ensures forall y :: y in s + [x] <==> y in s || y == x
  {
    assert forall i :: 0 <= i < |s| ==> s[i] in s;
  }

  /** s without its element at the position of x. */
  function Without<T(==)>(s: seq<T>, x: T): (r: seq<T>)
    requires x in s
    ensures |r| == |s| - 1
  {
    var i := IndexOf(s, x);
    s[..i] + s[i + 1..]
  }

  lemma WithoutMembers<T>(s: seq<T>, x: T)
    requires NoDup(s) && x in s
    ensures NoDup(Without(s, x))
    ensures forall y :: y in Without(s, x) <==> y in s && y != x
  {
    var i := IndexOf(s, x);
    var r := Without(s, x);
    forall y | y in s && y != x ensures y in r {
      var j := IndexOf(s, y);
      assert r[if j < i then j else j - 1] == y;
    }
    assert forall j :: 0 <= j < |r| ==> r[j] == s[if j < i then j else j + 1];
  }

  lemma WithoutIndex<T>(s: seq<T>, x: T, y: T)
    requires NoDup(s) && x in s && y in s && x != y
    ensures y in Without(s, x)
    ensures IndexOf(Without(s, x), y) == IndexOf(s, y) - if IndexOf(s, x) < IndexOf(s, y) then 1 else 0
  {
    WithoutMembers(s, x);
    IndexOfUnique(Without(s, x), y, IndexOf(s, y) - if IndexOf(s, x) < IndexOf(s, y) then 1 else 0);
  }

  /** Concatenation of a sequence of blocks. */
  function Flatten(blocks: seq<string>): (r: string) {
    if blocks == [] then "" else blocks[0] + Flatten(blocks[1..])
  }

  lemma {:induction false} FlattenAppend(a: seq<string>, b: string)
    ensures Flatten(a + [b]) == Flatten(a) + b
  {
    if a == [] {
      assert a + [b] == [b];
    } else {
      assert (a + [b])[1..] == a[1..] + [b];
      FlattenAppend(a[1..], b);
    }
  }

  // ------------------------------------------------------------ machine words

  const INT32_MAX := 0x7FFF_FFFF
  const TWO_32 := 0x1_0000_0000
  const TWO_64 := 0x1_0000_0000_0000_0000

  /** Two's-complement truncation to int32_t. */
  function ToInt32(x: int): (r: int)
    ensures -0x8000_0000 <= r <= INT32_MAX
    ensures -0x8000_0000 <= x <= INT32_MAX ==> r == x
  {
    var m := x % TWO_32;
    if m <= INT32_MAX then m else m - TWO_32
  }

  /** Conversion of a signed value to size_t. */
  function ToSize(x: int): (r: nat)
    ensures r < TWO_64
    ensures 0 <= x < TWO_64 ==> r == x
  {
    x % TWO_64
  }
}
