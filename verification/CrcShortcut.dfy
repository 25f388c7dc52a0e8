// The constant of the chain shortcut: the checksum of 2904 zero bytes, by
// squaring in the ring of the register.

module CrcShortcut {
  import opened Gf2
  import opened Crc32
  import opened Whitening
  import opened Protocol
  import DerivedSymbols

  // The register that stands for 1.
  const ONE: Word := 0x80000000

  function Up(c: Word): Word { c << 1 }

  predicate Top(c: Word) { c & 0x80000000 != 0 }

  // The product of the highest n bits of c with p, as registers.
  function Product(c: Word, p: Word, n: nat): Word
    decreases n
  {
    if n == 0 then 0
    else if Top(c) then Plus(p, Product(Up(c), BitStep(p), n - 1))
    else Product(Up(c), BitStep(p), n - 1)
  }

  // Nothing is left of c after n shifts.
  predicate Spent(c: Word, n: nat)
    decreases n
  {
    if n == 0 then c == 0 else Spent(Up(c), n - 1)
  }

  lemma SpentAll(c: Word)
    ensures Spent(c, 32)
  {
    SpentHalf(c);
    SpentMore(Sixteen(c), 16);
    SixteenUps(c, 16);
  }

  function Sixteen(c: Word): Word { c << 16 }

  lemma SpentHalf(c: Word)
    ensures Sixteen(Sixteen(c)) == 0
  {}

  lemma SpentMore(c: Word, n: nat)
    requires n == 16 && Sixteen(c) == 0
    ensures Spent(c, n)
  {
    Ups(c);
    hide Up, Sixteen;
    assert Spent(c, 16) == Spent(Up(Up(Up(Up(c)))), 12) == Spent(Up(Up(Up(Up(Up(Up(Up(Up(c)))))))), 8);
    assert Spent(Up(Up(Up(Up(Up(Up(Up(Up(c)))))))), 8) == Spent(Up(Up(Up(Up(Up(Up(Up(Up(Up(Up(Up(Up(c)))))))))))), 4) == Spent(Up(Up(Up(Up(Up(Up(Up(Up(Up(Up(Up(Up(Up(Up(Up(Up(c)))))))))))))))), 0);
  }

  lemma Ups(c: Word)
    ensures Up(Up(Up(Up(Up(Up(Up(Up(Up(Up(Up(Up(Up(Up(Up(Up(c)))))))))))))))) == Sixteen(c)
  {}

  lemma SixteenUps(c: Word, n: nat)
    requires n == 16 && Spent(Sixteen(c), 16)
    ensures Spent(c, 32)
  {
    Ups(c);
    hide Up, Sixteen;
    assert Spent(c, 32) == Spent(Up(Up(Up(Up(c)))), 28);
    assert Spent(Up(Up(Up(Up(c)))), 28) == Spent(Up(Up(Up(Up(Up(Up(Up(Up(c)))))))), 24);
    assert Spent(Up(Up(Up(Up(Up(Up(Up(Up(c)))))))), 24) == Spent(Up(Up(Up(Up(Up(Up(Up(Up(Up(Up(Up(Up(c)))))))))))), 20);
    assert Spent(Up(Up(Up(Up(Up(Up(Up(Up(Up(Up(Up(Up(c)))))))))))), 20)
        == Spent(Up(Up(Up(Up(Up(Up(Up(Up(Up(Up(Up(Up(Up(Up(Up(Up(c)))))))))))))))), 16);
  }

  // The highest bit apart from the others.
  lemma TopApart(c: Word)
    ensures c == if Top(c) then Plus(ONE, BitStep(Up(c))) else BitStep(Up(c))
  {
    UpOdd(c);
    UpHalf(c);
    WithTop(c);
    hide Odd, Half, Up, Lower, Plus, Top;
  }

  function Lower(c: Word): Word { c & 0x7FFFFFFF }

  lemma UpOdd(c: Word)
    ensures !Odd(Up(c))
  {}

  lemma UpHalf(c: Word)
    ensures Half(Up(c)) == Lower(c)
  {}

  lemma WithTop(c: Word)
    ensures c == if Top(c) then Plus(ONE, Lower(c)) else Lower(c)
  {
    TwoParts(c);
    UpperIs(c);
    hide Top, Upper, Lower, Plus;
    PlusZero(Lower(c));
  }

  function Upper(c: Word): Word { c & 0x80000000 }

  lemma TwoParts(c: Word)
    ensures Plus(Upper(c), Lower(c)) == c
  {}

  lemma UpperIs(c: Word)
    ensures Upper(c) == if Top(c) then ONE else 0
  {}

  lemma {:induction false} ZeroSteps(n: nat)
    ensures BitSteps(0, n) == 0
    decreases n
  {
    if n > 0 {
      StepZero();
      ZeroSteps(n - 1);
    }
  }

  lemma StepZero()
    ensures BitStep(0) == 0
  {}

  // Steps of any register are its product with the steps of one.
  lemma {:induction false} StepsAreProduct(c: Word, k: nat, n: nat)
    requires Spent(c, n)
    ensures BitSteps(c, k) == Product(c, BitSteps(ONE, k), n)
    decreases n
  {
    hide BitStep, Plus, Top, Up;
    if n == 0 {
      ZeroSteps(k);
    } else {
      var rest := BitStep(Up(c));
      TopApart(c);
      BitStepsAdd(ONE, k, 1);
      assert BitSteps(BitSteps(ONE, k), 1) == BitStep(BitSteps(ONE, k));
      assert BitSteps(Up(c), k + 1) == BitSteps(rest, k);
      StepsAreProduct(Up(c), k + 1, n - 1);
      BitStepsPlus(ONE, rest, k);
    }
  }

  lemma Doubled(k: nat, p: Word, r: Word)
    requires BitSteps(ONE, k) == p && Product(p, p, 32) == r
    ensures BitSteps(ONE, 2 * k) == r
  {
    hide BitStep, Product, Spent;
    SpentAll(p);
    StepsAreProduct(p, k, 32);
    BitStepsAdd(ONE, k, k);
  }

  lemma OneMore(k: nat, p: Word)
    requires BitSteps(ONE, k) == p
    ensures BitSteps(ONE, k + 1) == BitStep(p)
  {
    hide BitStep;
    BitStepsAdd(ONE, k, 1);
    assert BitSteps(p, 1) == BitStep(p);
  }

  // ----- 23232 steps

  // Eight bits of a product at once.
  function Term(on: bool, p: Word): Word { if on then p else 0 }

  function Part(c: Word, p: Word): Word {
    var p1 := BitStep(p);
    var p2 := BitStep(p1);
    var p3 := BitStep(p2);
    var p4 := BitStep(p3);
    var p5 := BitStep(p4);
    var p6 := BitStep(p5);
    var p7 := BitStep(p6);
    Plus(Term(Tested(c, 0x80000000), p), Plus(Term(Tested(c, 0x40000000), p1), Plus(Term(Tested(c, 0x20000000), p2),
    Plus(Term(Tested(c, 0x10000000), p3), Plus(Term(Tested(c, 0x08000000), p4), Plus(Term(Tested(c, 0x04000000), p5),
    Plus(Term(Tested(c, 0x02000000), p6), Term(Tested(c, 0x01000000), p7))))))))
  }

  function Eighth(p: Word): Word {
    BitStep(BitStep(BitStep(BitStep(BitStep(BitStep(BitStep(BitStep(p))))))))
  }

  function Byte1Up(c: Word): Word { c << 8 }

  // The product as four of them.
  function Quartered(c: Word, p: Word): Word {
    var c1 := Byte1Up(c);
    var c2 := Byte1Up(c1);
    var c3 := Byte1Up(c2);
    var p1 := Eighth(p);
    var p2 := Eighth(p1);
    var p3 := Eighth(p2);
    Plus(Part(c, p), Plus(Part(c1, p1), Plus(Part(c2, p2), Part(c3, p3))))
  }

  predicate Tested(c: Word, m: Word) { c & m != 0 }

  lemma TestUp(c: Word)
    ensures Tested(Up(c), 0x80000000) == Tested(c, 0x40000000) && Tested(Up(c), 0x40000000) == Tested(c, 0x20000000)
    ensures Tested(Up(c), 0x20000000) == Tested(c, 0x10000000) && Tested(Up(c), 0x10000000) == Tested(c, 0x08000000)
    ensures Tested(Up(c), 0x08000000) == Tested(c, 0x04000000) && Tested(Up(c), 0x04000000) == Tested(c, 0x02000000)
    ensures Tested(Up(c), 0x02000000) == Tested(c, 0x01000000)
  {}

  lemma TopTested(c: Word)
    ensures Top(c) == Tested(c, 0x80000000)
  {}

  lemma EightUps(c: Word)
    ensures Up(Up(Up(Up(Up(Up(Up(Up(c)))))))) == Byte1Up(c)
  {}

  lemma UpBits(c: Word)
    ensures Top(c) == Tested(c, 0x80000000) && Top(Up(c)) == Tested(c, 0x40000000)
    ensures Top(Up(Up(c))) == Tested(c, 0x20000000) && Top(Up(Up(Up(c)))) == Tested(c, 0x10000000)
    ensures Top(Up(Up(Up(Up(c))))) == Tested(c, 0x08000000) && Top(Up(Up(Up(Up(Up(c)))))) == Tested(c, 0x04000000)
    ensures Top(Up(Up(Up(Up(Up(Up(c))))))) == Tested(c, 0x02000000) && Top(Up(Up(Up(Up(Up(Up(Up(c)))))))) == Tested(c, 0x01000000)
  {
    hide Top, Up, Tested;
    var c1 := Up(c); var c2 := Up(c1); var c3 := Up(c2); var c4 := Up(c3); var c5 := Up(c4); var c6 := Up(c5); var c7 := Up(c6);
    TopTested(c); TopTested(c1); TopTested(c2); TopTested(c3); TopTested(c4); TopTested(c5); TopTested(c6); TopTested(c7);
    TestUp(c); TestUp(c1); TestUp(c2); TestUp(c3); TestUp(c4); TestUp(c5); TestUp(c6);
  }

  lemma ProductStep(c: Word, p: Word, n: nat)
    requires n > 0
    ensures Product(c, p, n) == Plus(Term(Top(c), p), Product(Up(c), BitStep(p), n - 1))
  {
    hide Plus, BitStep, Up;
    PlusZero(Product(Up(c), BitStep(p), n - 1));
  }

  lemma ProductEight(c: Word, p: Word, n: nat)
    requires n >= 8
    ensures Product(c, p, n) == Plus(Part(c, p), Product(Byte1Up(c), Eighth(p), n - 8))
  {
    UpBits(c);
    EightUps(c);
    hide Plus, BitStep, Up, Top, Product, Byte1Up, Term, Tested;
    var c1 := Up(c); var c2 := Up(c1); var c3 := Up(c2); var c4 := Up(c3); var c5 := Up(c4); var c6 := Up(c5); var c7 := Up(c6);
    var p1 := BitStep(p); var p2 := BitStep(p1); var p3 := BitStep(p2); var p4 := BitStep(p3);
    var p5 := BitStep(p4); var p6 := BitStep(p5); var p7 := BitStep(p6);
    ProductStep(c, p, n); ProductStep(c1, p1, n - 1); ProductStep(c2, p2, n - 2); ProductStep(c3, p3, n - 3);
    ProductStep(c4, p4, n - 4); ProductStep(c5, p5, n - 5); ProductStep(c6, p6, n - 6); ProductStep(c7, p7, n - 7);
    var r := Product(Byte1Up(c), Eighth(p), n - 8);
    var t0, t1, t2, t3 := Term(Top(c), p), Term(Top(c1), p1), Term(Top(c2), p2), Term(Top(c3), p3);
    var t4, t5, t6, t7 := Term(Top(c4), p4), Term(Top(c5), p5), Term(Top(c6), p6), Term(Top(c7), p7);
    PlusAssoc(t6, t7, r);
    PlusAssoc(t5, Plus(t6, t7), r);
    PlusAssoc(t4, Plus(t5, Plus(t6, t7)), r);
    PlusAssoc(t3, Plus(t4, Plus(t5, Plus(t6, t7))), r);
    PlusAssoc(t2, Plus(t3, Plus(t4, Plus(t5, Plus(t6, t7)))), r);
    PlusAssoc(t1, Plus(t2, Plus(t3, Plus(t4, Plus(t5, Plus(t6, t7))))), r);
    PlusAssoc(t0, Plus(t1, Plus(t2, Plus(t3, Plus(t4, Plus(t5, Plus(t6, t7)))))), r);
  }

  lemma Quarters(c: Word, p: Word)
    ensures Product(c, p, 32) == Quartered(c, p)
  {
    hide Plus, Part, Eighth, Byte1Up;
    var c1 := Byte1Up(c);
    var p1 := Eighth(p);
    ProductEight(c, p, 32);
    ProductEight(c1, p1, 24);
    ProductEight(Byte1Up(c1), Eighth(p1), 16);
    ProductEight(Byte1Up(Byte1Up(c1)), Eighth(Eighth(p1)), 8);
    assert Product(Byte1Up(Byte1Up(Byte1Up(c1))), Eighth(Eighth(Eighth(p1))), 0) == 0;
    PlusZero(Part(Byte1Up(Byte1Up(c1)), Eighth(Eighth(p1))));
  }

  lemma Square22()
    ensures Product(0x00000200, 0x00000200, 32) == 0xC8D98A08
  {
    assert Eighth(0x00000200) == 0x00000002 && Eighth(0x00000002) == 0xEE0E612C && Eighth(0xEE0E612C) == 0x32366282;
    assert Part(0x00000200, 0x00000200) == 0x00000000 && Part(0x00020000, 0x00000002) == 0x00000000;
    assert Part(0x02000000, 0xEE0E612C) == 0xC8D98A08 && Part(0x00000000, 0x32366282) == 0x00000000;
    hide Part, Eighth, Product;
    Quarters(0x00000200, 0x00000200);
  }

  lemma Square45()
    ensures Product(0x646CC504, 0x646CC504, 32) == 0xF9766256
  {
    assert Eighth(0x646CC504) == 0x0709A8DC && Eighth(0x0709A8DC) == 0x8F629757 && Eighth(0x8F629757) == 0xF580A6C0;
    assert Part(0x646CC504, 0x646CC504) == 0x13601523 && Part(0x6CC50400, 0x0709A8DC) == 0x3960495A;
    assert Part(0xC5040000, 0x8F629757) == 0xD4DA3B19 && Part(0x04000000, 0xF580A6C0) == 0x07AC0536;
    hide Part, Eighth, Product;
    Quarters(0x646CC504, 0x646CC504);
  }

  lemma Square90()
    ensures Product(0xF9766256, 0xF9766256, 32) == 0x09A11D85
  {
    assert Eighth(0xF9766256) == 0x82F182A3 && Eighth(0x82F182A3) == 0x4F5D03D0 && Eighth(0x4F5D03D0) == 0x869C8FD7;
    assert Part(0xF9766256, 0xF9766256) == 0x4ED54248 && Part(0x76625600, 0x82F182A3) == 0xBB8AAC27;
    assert Part(0x62560000, 0x4F5D03D0) == 0x4398F483 && Part(0x56000000, 0x869C8FD7) == 0xBF660769;
    hide Part, Eighth, Product;
    Quarters(0xF9766256, 0xF9766256);
  }

  lemma Square181()
    ensures Product(0xE9680DE2, 0xE9680DE2, 32) == 0x266CD2DC
  {
    assert Eighth(0xE9680DE2) == 0x4EEDEB59 && Eighth(0x4EEDEB59) == 0x12F904BB && Eighth(0x12F904BB) == 0x5CA19300;
    assert Part(0xE9680DE2, 0xE9680DE2) == 0xE21DFDEF && Part(0x680DE200, 0x4EEDEB59) == 0x5B48003B;
    assert Part(0x0DE20000, 0x12F904BB) == 0xFB929704 && Part(0xE2000000, 0x5CA19300) == 0x64ABB80C;
    hide Part, Eighth, Product;
    Quarters(0xE9680DE2, 0xE9680DE2);
  }

  lemma Square363()
    ensures Product(0x1336696E, 0x1336696E, 32) == 0x808B7EA9
  {
    assert Eighth(0x1336696E) == 0xAA197A36 && Eighth(0xAA197A36) == 0xCF108CE3 && Eighth(0xCF108CE3) == 0x39CCA34E;
    assert Part(0x1336696E, 0x1336696E) == 0xD3B71FAB && Part(0x36696E00, 0xAA197A36) == 0x0D887708;
    assert Part(0x696E0000, 0xCF108CE3) == 0x7B215A27 && Part(0x6E000000, 0x39CCA34E) == 0x25954C2D;
    hide Part, Eighth, Product;
    Quarters(0x1336696E, 0x1336696E);
  }

  lemma Square726()
    ensures Product(0x808B7EA9, 0x808B7EA9, 32) == 0x95134B35
  {
    assert Eighth(0x808B7EA9) == 0xAF8A9032 && Eighth(0xAF8A9032) == 0xC878DB10 && Eighth(0xC878DB10) == 0x1D7F68BF;
    assert Part(0x808B7EA9, 0x808B7EA9) == 0x808B7EA9 && Part(0x8B7EA900, 0xAF8A9032) == 0x429DC95A;
    assert Part(0x7EA90000, 0xC878DB10) == 0xDDAC2A9B && Part(0xA9000000, 0x1D7F68BF) == 0x8AA9D65D;
    hide Part, Eighth, Product;
    Quarters(0x808B7EA9, 0x808B7EA9);
  }

  lemma Square1452()
    ensures Product(0x95134B35, 0x95134B35, 32) == 0x7F8CB060
  {
    assert Eighth(0x95134B35) == 0x5626D768 && Eighth(0x5626D768) == 0x433FCFBD && Eighth(0x433FCFBD) == 0xB593F0FE;
    assert Part(0x95134B35, 0x95134B35) == 0x218F9EE8 && Part(0x134B3500, 0x5626D768) == 0x5B357D22;
    assert Part(0x4B350000, 0x433FCFBD) == 0x454D6457 && Part(0x35000000, 0xB593F0FE) == 0x407B37FD;
    hide Part, Eighth, Product;
    Quarters(0x95134B35, 0x95134B35);
  }

  lemma Square2904()
    ensures Product(0x7F8CB060, 0x7F8CB060, 32) == 0x1199FDC6
  {
    assert Eighth(0x7F8CB060) == 0x4DCDEDE8 && Eighth(0x4DCDEDE8) == 0xAE9CA7A7 && Eighth(0xAE9CA7A7) == 0x481CAAEC;
    assert Part(0x7F8CB060, 0x7F8CB060) == 0x5C0D2690 && Part(0x8CB06000, 0x4DCDEDE8) == 0xD01B9EE9;
    assert Part(0xB0600000, 0xAE9CA7A7) == 0xAB863A72 && Part(0x60000000, 0x481CAAEC) == 0x36097FCD;
    hide Part, Eighth, Product;
    Quarters(0x7F8CB060, 0x7F8CB060);
  }

  lemma Square5808()
    ensures Product(0x1199FDC6, 0x1199FDC6, 32) == 0x14CECCAE
  {
    assert Eighth(0x1199FDC6) == 0x7216FE78 && Eighth(0x7216FE78) == 0x5EACEFF0 && Eighth(0x5EACEFF0) == 0xBDE35EF3;
    assert Part(0x1199FDC6, 0x1199FDC6) == 0x7D7A01F8 && Part(0x99FDC600, 0x7216FE78) == 0x2B941290;
    assert Part(0xFDC60000, 0x5EACEFF0) == 0x2794AF0D && Part(0xC6000000, 0xBDE35EF3) == 0x65B470CB;
    hide Part, Eighth, Product;
    Quarters(0x1199FDC6, 0x1199FDC6);
  }

  lemma Square11616()
    ensures Product(0x14CECCAE, 0x14CECCAE, 32) == 0x1D08C47B
  {
    assert Eighth(0x14CECCAE) == 0x317A4023 && Eighth(0x317A4023) == 0xA2560B32 && Eighth(0xA2560B32) == 0xC875078B;
    assert Part(0x14CECCAE, 0x14CECCAE) == 0xC95E1C7C && Part(0xCECCAE00, 0x317A4023) == 0x179D1BE0;
    assert Part(0xCCAE0000, 0xA2560B32) == 0x372B6DCD && Part(0xAE000000, 0xC875078B) == 0xF4E0AE2A;
    hide Part, Eighth, Product;
    Quarters(0x14CECCAE, 0x14CECCAE);
  }

  lemma First22()
    ensures BitSteps(ONE, 22) == 0x00000200
  {
    FirstSteps();
    hide BitStep;
    assert BitSteps(ONE, 22) == BitSteps(0x10000000, 19) == BitSteps(0x02000000, 16) == BitSteps(0x00400000, 13);
    assert BitSteps(0x00400000, 13) == BitSteps(0x00080000, 10) == BitSteps(0x00010000, 7) == BitSteps(0x00002000, 4);
    assert BitSteps(0x00002000, 4) == BitSteps(0x00000400, 1) == BitSteps(0x00000200, 0);
  }

  lemma FirstSteps()
    ensures BitStep(0x80000000) == 0x40000000 && BitStep(0x40000000) == 0x20000000 && BitStep(0x20000000) == 0x10000000
    ensures BitStep(0x10000000) == 0x08000000 && BitStep(0x08000000) == 0x04000000 && BitStep(0x04000000) == 0x02000000
    ensures BitStep(0x02000000) == 0x01000000 && BitStep(0x01000000) == 0x00800000 && BitStep(0x00800000) == 0x00400000
    ensures BitStep(0x00400000) == 0x00200000 && BitStep(0x00200000) == 0x00100000 && BitStep(0x00100000) == 0x00080000
    ensures BitStep(0x00080000) == 0x00040000 && BitStep(0x00040000) == 0x00020000 && BitStep(0x00020000) == 0x00010000
    ensures BitStep(0x00010000) == 0x00008000 && BitStep(0x00008000) == 0x00004000 && BitStep(0x00004000) == 0x00002000
    ensures BitStep(0x00002000) == 0x00001000 && BitStep(0x00001000) == 0x00000800 && BitStep(0x00000800) == 0x00000400
    ensures BitStep(0x00000400) == 0x00000200
  {}

  lemma SingleSteps()
    ensures BitStep(0xC8D98A08) == 0x646CC504 && BitStep(0x09A11D85) == 0xE9680DE2 && BitStep(0x266CD2DC) == 0x1336696E
  {}

  lemma AllSteps()
    ensures BitSteps(ONE, 23232) == 0x1D08C47B
  {
    hide BitSteps, BitStep, Product;
    First22();
    SingleSteps();
    Square22(); Doubled(22, 0x00000200, 0xC8D98A08);
    OneMore(44, 0xC8D98A08);
    Square45(); Doubled(45, 0x646CC504, 0xF9766256);
    Square90(); Doubled(90, 0xF9766256, 0x09A11D85);
    OneMore(180, 0x09A11D85);
    Square181(); Doubled(181, 0xE9680DE2, 0x266CD2DC);
    OneMore(362, 0x266CD2DC);
    Square363(); Doubled(363, 0x1336696E, 0x808B7EA9);
    Square726(); Doubled(726, 0x808B7EA9, 0x95134B35);
    Square1452(); Doubled(1452, 0x95134B35, 0x7F8CB060);
    Square2904(); Doubled(2904, 0x7F8CB060, 0x1199FDC6);
    Square5808(); Doubled(5808, 0x1199FDC6, 0x14CECCAE);
    Square11616(); Doubled(11616, 0x14CECCAE, 0x1D08C47B);
  }

  lemma {:induction false} RunZeros(c: Word, n: nat)
    ensures Run(c, Zeros(n)) == BitSteps(c, 8 * n)
    decreases n
  {
    hide BitStep, Plus, Wide;
    if n > 0 {
      assert Zeros(n)[..n - 1] == Zeros(n - 1);
      RunZeros(c, n - 1);
      NoByte(Run(c, Zeros(n - 1)));
      BitStepsAdd(c, 8 * (n - 1), 8);
    }
  }

  lemma NoByte(c: Word)
    ensures Plus(c, Wide(0)) == c
  {}

  // The constant in the source.
  lemma ZeroPayload()
    ensures Crc(Zeros(2904)) == 0xA15AD0F2
  {
    hide BitSteps, Product, Spent, Run;
    RunZeros(START, 2904);
    AllSteps();
    SpentAll(START);
    StepsAreProduct(START, 23232, 32);
    Last();
  }

  lemma Last()
    ensures Plus(Product(START, 0x1D08C47B, 32), START) == 0xA15AD0F2
  {
    assert Eighth(0x1D08C47B) == 0xC7CAA070 && Eighth(0xC7CAA070) == 0x50C2BB9C && Eighth(0x50C2BB9C) == 0xF9E91DD4;
    assert Part(0xFFFFFFFF, 0x1D08C47B) == 0x937C47F2 && Part(0xFFFFFF00, 0xC7CAA070) == 0x5320EF77;
    assert Part(0xFFFF0000, 0x50C2BB9C) == 0xCE32C470 && Part(0xFF000000, 0xF9E91DD4) == 0x50CB43F8;
    hide Part, Eighth, Product;
    Quarters(0xFFFFFFFF, 0x1D08C47B);
  }

  // So the checksum the sender puts into a full chain frame without reading its
  // payload is the checksum of that payload.
  lemma ChainConstant(m: DerivedSymbols.Members, left: Frame, right: Frame, chain: Frame)
    requires DerivedSymbols.GoodMembers(m) && |m.records| == 2 && m.size == 2904
    requires DerivedSymbols.IsData(m, left, 0) && DerivedSymbols.IsData(m, right, 1) && DerivedSymbols.IsParity(m, chain)
    ensures |chain.payload| == 2904
    ensures Crc(DerivedSymbols.Sent(chain)[HEADER..]) ==
            Plus(Plus(Crc(Whiten(left.payload, Seeds(left))), Crc(Whiten(right.payload, Seeds(right)))), 0xA15AD0F2)
  {
    hide Whiten, Seeds, Crc, Plus, DerivedSymbols.Sent, XorAll;
    DerivedSymbols.ChainCrc(m, left, right, chain);
    ZeroPayload();
  }
}
