/** Byte strings, their lexicographic order (the order of Rust's `BTreeMap` keys, `sort` and `cmp`
    on byte arrays), and the ascending enumeration of a finite set of them. */
module Bytes {
  datatype Option<+T> = None | Some(value: T)

  type Byte = b: int | 0 <= b < 256
  type ByteString = seq<Byte>
  type Digest = d: seq<Byte> | |d| == 32 witness seq(32, _ => 0)

  function Zeros(n: nat): (s: ByteString)
    ensures |s| == n && forall i | 0 <= i < n :: s[i] == 0
  {
    if n == 0 then [] else Zeros(n - 1) + [0]
  }

  /** The bytes of a text in ASCII. */
  function Ascii(text: string): (s: ByteString)
    requires forall c | c in text :: c as int < 128
    ensures |s| == |text| && forall i | 0 <= i < |s| :: s[i] == text[i] as int
  {
    seq<Byte>(|text|, i requires 0 <= i < |text| => assert text[i] in text; text[i] as Byte)
  }

  predicate LexLe(a: ByteString, b: ByteString) {
    a == [] || (b != [] && (a[0] < b[0] || (a[0] == b[0] && LexLe(a[1..], b[1..]))))
  }

  lemma {:induction false} LexReflexive(a: ByteString)
    ensures LexLe(a, a)
  {
    if a != [] { LexReflexive(a[1..]); }
  }

  lemma {:induction false} LexTotal(a: ByteString, b: ByteString)
    ensures LexLe(a, b) || LexLe(b, a)
  {
    if a != [] && b != [] { LexTotal(a[1..], b[1..]); }
  }

  lemma {:induction false} LexAntisymmetric(a: ByteString, b: ByteString)
    requires LexLe(a, b) && LexLe(b, a)
    ensures a == b
  {
    if a != [] {
      LexAntisymmetric(a[1..], b[1..]);
      assert a == [a[0]] + a[1..] && b == [b[0]] + b[1..];
    }
  }

  lemma {:induction false} LexTransitive(a: ByteString, b: ByteString, c: ByteString)
    requires LexLe(a, b) && LexLe(b, c)
    ensures LexLe(a, c)
  {
    if a != [] && a[0] == b[0] == c[0] { LexTransitive(a[1..], b[1..], c[1..]); }
  }

  lemma {:induction false} LeastExists(s: set<ByteString>)
    requires s != {}
    ensures exists m :: m in s && forall x | x in s :: LexLe(m, x)
    decreases |s|
  {
    var y :| y in s;
    var rest := s - {y};
    LexReflexive(y);
    if rest == {} {
      assert s == {y};
    } else {
      LeastExists(rest);
      var m :| m in rest && forall x | x in rest :: LexLe(m, x);
      LexTotal(y, m);
      if LexLe(y, m) {
        forall x | x in s ensures LexLe(y, x) { if x != y { LexTransitive(y, m, x); } }
      } else {
        forall x | x in s ensures LexLe(m, x) { if x != y { assert x in rest; } }
      }
    }
  }

  function Least(s: set<ByteString>): (m: ByteString)
    requires s != {}
    ensures m in s && forall x | x in s :: LexLe(m, x)
  {
    LeastExists(s);
    assert forall a, b | a in s && b in s && (forall x | x in s :: LexLe(a, x)) && (forall x | x in s :: LexLe(b, x)) :: a == b
    by {
      forall a, b | a in s && b in s && (forall x | x in s :: LexLe(a, x)) && (forall x | x in s :: LexLe(b, x))
        ensures a == b
      {
        LexAntisymmetric(a, b);
      }
    }
    var m :| m in s && forall x | x in s :: LexLe(m, x);
    m
  }

  predicate NoDuplicates<T(==)>(s: seq<T>) {
    forall i, j | 0 <= i < j < |s| :: s[i] != s[j]
  }

  /** The keys of an ordered map, in iteration order. */
  function Ascending(s: set<ByteString>): (r: seq<ByteString>)
    ensures forall x :: x in r <==> x in s
    ensures NoDuplicates(r) && |r| == |s|
    decreases |s|
  {
    if s == {} then []
    else
      var m := Least(s);
      var tail := Ascending(s - {m});
      assert forall i | 0 <= i < |tail| :: tail[i] in s - {m};
      [m] + tail
  }

  lemma {:induction false} AscendingIsSorted(s: set<ByteString>)
    ensures forall i, j | 0 <= i < j < |Ascending(s)| :: LexLe(Ascending(s)[i], Ascending(s)[j])
    decreases |s|
  {
    if s != {} {
      var m := Least(s);
      AscendingIsSorted(s - {m});
      var tail := Ascending(s - {m});
      assert Ascending(s) == [m] + tail;
      assert forall j | 0 <= j < |tail| :: tail[j] in s;
    }
  }

  lemma CardinalityOfSubset<T>(a: set<T>, b: set<T>)
    requires a <= b
    ensures |a| <= |b|
  {
    assert b == a + (b - a);
  }
}
