// Byte strings as vectors over GF(2).  Every parity shortcut of the senders
// and every repair step of the receiver is an identity between XORs of such
// strings.

module Gf2 {
  type Byte = bv8
  type Word = bv32
  type Bytes = seq<bv8>

  // XOR of two 32-bit words, and the conversions between words and bytes.
  function Plus(a: Word, b: Word): Word { a ^ b }

  // XOR of two bytes.
  function Add(a: Byte, b: Byte): Byte { a ^ b }

  function Wide(b: Byte): Word { b as Word }

  function Low(w: Word): Byte { (w & 0xFF) as Byte }

  lemma PlusComm(a: Word, b: Word)
    ensures Plus(a, b) == Plus(b, a)
  {}

  lemma PlusAssoc(a: Word, b: Word, c: Word)
    ensures Plus(Plus(a, b), c) == Plus(a, Plus(b, c))
  {}

  lemma PlusCancel(a: Word, b: Word)
    ensures Plus(Plus(a, b), b) == a
  {}

  lemma PlusSelf(a: Word)
    ensures Plus(a, a) == 0
  {}

  lemma PlusZero(a: Word)
    ensures Plus(0, a) == a && Plus(a, 0) == a
  {}

  lemma PlusCross(a: Word, b: Word, c: Word, d: Word)
    ensures Plus(Plus(a, b), Plus(c, d)) == Plus(Plus(a, c), Plus(b, d))
  {
    hide Plus;
    PlusAssoc(a, b, Plus(c, d));
    PlusAssoc(b, c, d);
    PlusComm(b, c);
    PlusAssoc(c, b, d);
    PlusAssoc(a, c, Plus(b, d));
  }

  lemma WidePlus(a: Byte, b: Byte)
    ensures Wide(Add(a, b)) == Plus(Wide(a), Wide(b))
  {}

  lemma AddComm(a: Byte, b: Byte)
    ensures Add(a, b) == Add(b, a)
  {}

  lemma AddAssoc(a: Byte, b: Byte, c: Byte)
    ensures Add(Add(a, b), c) == Add(a, Add(b, c))
  {}

  lemma AddZero()
    ensures forall b: Byte :: Add(b, 0) == b && Add(0, b) == b
  {
    assert forall b: Byte :: Add(b, 0) == b && Add(0, b) == b;
  }

  lemma AddSelf(a: Byte)
    ensures Add(a, a) == 0
  {}

  lemma AddCross(a: Byte, b: Byte, c: Byte, d: Byte)
    ensures Add(Add(a, b), Add(c, d)) == Add(Add(a, c), Add(b, d))
  {
    hide Add;
    AddAssoc(a, b, Add(c, d));
    AddAssoc(b, c, d);
    AddComm(b, c);
    AddAssoc(c, b, d);
    AddAssoc(a, c, Add(b, d));
  }

  // Position-wise XOR of two strings of equal length.
  function Xor(a: Bytes, b: Bytes): (r: Bytes)
    requires |a| == |b|
    ensures |r| == |a|
    ensures forall i :: 0 <= i < |r| ==> r[i] == Add(a[i], b[i])
  {
    seq(|a|, i requires 0 <= i < |a| => Add(a[i], b[i]))
  }

  function Zeros(n: nat): (r: Bytes)
    ensures |r| == n
    ensures forall i :: 0 <= i < n ==> r[i] == 0
  {
    seq(n, _ => 0)
  }

  lemma XorComm(a: Bytes, b: Bytes)
    requires |a| == |b|
    ensures Xor(a, b) == Xor(b, a)
  {
    var l, r := Xor(a, b), Xor(b, a);
    forall i | 0 <= i < |a| ensures l[i] == r[i] {}
  }

  lemma XorAssoc(a: Bytes, b: Bytes, c: Bytes)
    requires |a| == |b| == |c|
    ensures Xor(Xor(a, b), c) == Xor(a, Xor(b, c))
  {
    var l, r := Xor(Xor(a, b), c), Xor(a, Xor(b, c));
    forall i | 0 <= i < |a| ensures l[i] == r[i] {}
  }

  lemma XorSelf(a: Bytes)
    ensures Xor(a, a) == Zeros(|a|)
  {
    var l := Xor(a, a);
    forall i | 0 <= i < |a| ensures l[i] == 0 {}
  }

  lemma XorZero(a: Bytes)
    ensures Xor(a, Zeros(|a|)) == a
  {
    var l := Xor(a, Zeros(|a|));
    forall i | 0 <= i < |a| ensures l[i] == a[i] {}
  }

  lemma XorCancel(a: Bytes, b: Bytes)
    requires |a| == |b|
    ensures Xor(Xor(a, b), b) == a
  {
    var l := Xor(Xor(a, b), b);
    forall i | 0 <= i < |a| ensures l[i] == a[i] {}
  }

  lemma XorConcat(a: Bytes, b: Bytes, c: Bytes, d: Bytes)
    requires |a| == |c| && |b| == |d|
    ensures Xor(a + b, c + d) == Xor(a, c) + Xor(b, d)
  {
    var l, r := Xor(a + b, c + d), Xor(a, c) + Xor(b, d);
    forall i | 0 <= i < |l| ensures l[i] == r[i] {}
  }

  lemma XorSlice(a: Bytes, b: Bytes, lo: nat, hi: nat)
    requires |a| == |b| && lo <= hi <= |a|
    ensures Xor(a, b)[lo..hi] == Xor(a[lo..hi], b[lo..hi])
  {}

  // XOR of a list of strings of length n.
  function XorAll(list: seq<Bytes>, n: nat): (r: Bytes)
    requires forall i :: 0 <= i < |list| ==> |list[i]| == n
    ensures |r| == n
  {
    if |list| == 0 then Zeros(n) else Xor(XorAll(list[..|list| - 1], n), list[|list| - 1])
  }

  lemma XorCross(a: Bytes, b: Bytes, c: Bytes, d: Bytes)
    requires |a| == |b| == |c| == |d|
    ensures Xor(Xor(a, b), Xor(c, d)) == Xor(Xor(a, c), Xor(b, d))
  {
    var l, r := Xor(Xor(a, b), Xor(c, d)), Xor(Xor(a, c), Xor(b, d));
    forall i | 0 <= i < |a| ensures l[i] == r[i] {}
  }

  // XOR distributes over XORing two lists term by term.
  lemma {:induction false} XorAllZip(a: seq<Bytes>, b: seq<Bytes>, n: nat, c: seq<Bytes>)
    requires |a| == |b| == |c|
    requires forall i :: 0 <= i < |a| ==> |a[i]| == n && |b[i]| == n && c[i] == Xor(a[i], b[i])
    ensures (forall i :: 0 <= i < |c| ==> |c[i]| == n) && XorAll(c, n) == Xor(XorAll(a, n), XorAll(b, n))
  {
    hide Xor;
    assert forall i :: 0 <= i < |c| ==> c[i] == Xor(a[i], b[i]) && |c[i]| == n;
    if |a| == 0 {
      XorZero(Zeros(n));
    } else {
      var k := |a| - 1;
      XorAllZip(a[..k], b[..k], n, c[..k]);
      XorCross(XorAll(a[..k], n), XorAll(b[..k], n), a[k], b[k]);
    }
  }

  // A string XORed with itself k times survives exactly when k is odd.
  lemma {:induction false} XorAllSame(list: seq<Bytes>, s: Bytes)
    requires forall i :: 0 <= i < |list| ==> list[i] == s
    ensures XorAll(list, |s|) == if |list| % 2 == 1 then s else Zeros(|s|)
  {
    if |list| > 0 {
      var k := |list| - 1;
      XorAllSame(list[..k], s);
      XorSelf(s);
      XorZero(s);
      XorComm(s, Zeros(|s|));
    }
  }
}
