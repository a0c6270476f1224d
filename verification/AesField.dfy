/** Arithmetic in GF(2^8) and the substitution boxes of aes.c. */
module AesField {
  /** Addition of field elements. */
  function Add(x: bv8, y: bv8): bv8 { x ^ y }

  function Xtime(x: bv8): bv8 { (x << 1) ^ (((x >> 7) & 1) * 0x1b) }

  /** The macro Multiply. */
  function Multiply(x: bv8, y: bv8): bv8 {
    ((y & 1) * x) ^
    (((y >> 1) & 1) * Xtime(x)) ^
    (((y >> 2) & 1) * Xtime(Xtime(x))) ^
    (((y >> 3) & 1) * Xtime(Xtime(Xtime(x)))) ^
    (((y >> 4) & 1) * Xtime(Xtime(Xtime(Xtime(x)))))
  }

  function Sum4(x: bv8, y: bv8, z: bv8, w: bv8): bv8 { Add(Add(x, y), Add(z, w)) }

  // ---- multiples ----

  function Mul3(x: bv8): bv8 { Add(Xtime(x), x) }
  function Mul9(x: bv8): bv8 { Add(Xtime(Xtime(Xtime(x))), x) }
  function MulB(x: bv8): bv8 { Add(Add(Xtime(Xtime(Xtime(x))), Xtime(x)), x) }
  function MulD(x: bv8): bv8 { Add(Add(Xtime(Xtime(Xtime(x))), Xtime(Xtime(x))), x) }
  function MulE(x: bv8): bv8 { Add(Add(Xtime(Xtime(Xtime(x))), Xtime(Xtime(x))), Xtime(x)) }

  lemma {:induction false} MultiplyForms(x: bv8)
    ensures Multiply(x, 0x09) == Mul9(x) && Multiply(x, 0x0b) == MulB(x)
    ensures Multiply(x, 0x0d) == MulD(x) && Multiply(x, 0x0e) == MulE(x)
  {}

  lemma {:induction false} XtimeAdd(x: bv8, y: bv8)
    ensures Xtime(Add(x, y)) == Add(Xtime(x), Xtime(y))
  {}

  lemma {:induction false} AddCommutes(x: bv8, y: bv8)
    ensures Add(x, y) == Add(y, x)
  {}

  lemma {:induction false} AddAssociates(x: bv8, y: bv8, z: bv8)
    ensures Add(Add(x, y), z) == Add(x, Add(y, z))
  {}

  lemma {:induction false} Interchange(x: bv8, y: bv8, z: bv8, w: bv8)
    ensures Add(Add(x, y), Add(z, w)) == Add(Add(x, z), Add(y, w))
  {
    AddAssociates(x, y, Add(z, w));
    AddAssociates(y, z, w);
    AddCommutes(y, z);
    AddAssociates(z, y, w);
    AddAssociates(x, z, Add(y, w));
  }

  /** Sums of sums, column by column. */
  lemma {:induction false} Interleave(x0: bv8, x1: bv8, x2: bv8, x3: bv8, y0: bv8, y1: bv8, y2: bv8, y3: bv8)
    ensures Add(Sum4(x0, x1, x2, x3), Sum4(y0, y1, y2, y3)) ==
            Sum4(Add(x0, y0), Add(x1, y1), Add(x2, y2), Add(x3, y3))
  {
    Interchange(Add(x0, x1), Add(x2, x3), Add(y0, y1), Add(y2, y3));
    Interchange(x0, x1, y0, y1);
    Interchange(x2, x3, y2, y3);
  }

  lemma {:induction false} XtimeSum4(x: bv8, y: bv8, z: bv8, w: bv8)
    ensures Xtime(Sum4(x, y, z, w)) == Sum4(Xtime(x), Xtime(y), Xtime(z), Xtime(w))
  {
    XtimeAdd(Add(x, y), Add(z, w));
    XtimeAdd(x, y);
    XtimeAdd(z, w);
  }

  lemma {:induction false} Square(x: bv8, y: bv8, z: bv8, w: bv8)
    ensures Xtime(Xtime(Sum4(x, y, z, w))) ==
            Sum4(Xtime(Xtime(x)), Xtime(Xtime(y)), Xtime(Xtime(z)), Xtime(Xtime(w)))
  {
    XtimeSum4(x, y, z, w);
    XtimeSum4(Xtime(x), Xtime(y), Xtime(z), Xtime(w));
  }

  lemma {:induction false} Cube(x: bv8, y: bv8, z: bv8, w: bv8)
    ensures Xtime(Xtime(Xtime(Sum4(x, y, z, w)))) ==
            Sum4(Xtime(Xtime(Xtime(x))), Xtime(Xtime(Xtime(y))), Xtime(Xtime(Xtime(z))), Xtime(Xtime(Xtime(w))))
  {
    Square(x, y, z, w);
    XtimeSum4(Xtime(Xtime(x)), Xtime(Xtime(y)), Xtime(Xtime(z)), Xtime(Xtime(w)));
  }

  lemma {:induction false} Mul3Linear(x: bv8, y: bv8, z: bv8, w: bv8)
    ensures Mul3(Sum4(x, y, z, w)) == Sum4(Mul3(x), Mul3(y), Mul3(z), Mul3(w))
  {
    XtimeSum4(x, y, z, w);
    Interleave(Xtime(x), Xtime(y), Xtime(z), Xtime(w),
               x, y, z, w);
  }

  lemma {:induction false} Mul9Linear(x: bv8, y: bv8, z: bv8, w: bv8)
    ensures Mul9(Sum4(x, y, z, w)) == Sum4(Mul9(x), Mul9(y), Mul9(z), Mul9(w))
  {
    Cube(x, y, z, w);
    Interleave(Xtime(Xtime(Xtime(x))), Xtime(Xtime(Xtime(y))), Xtime(Xtime(Xtime(z))), Xtime(Xtime(Xtime(w))),
               x, y, z, w);
  }

  lemma {:induction false} MulBLinear(x: bv8, y: bv8, z: bv8, w: bv8)
    ensures MulB(Sum4(x, y, z, w)) == Sum4(MulB(x), MulB(y), MulB(z), MulB(w))
  {
    Cube(x, y, z, w);
    XtimeSum4(x, y, z, w);
    Interleave(Xtime(Xtime(Xtime(x))), Xtime(Xtime(Xtime(y))), Xtime(Xtime(Xtime(z))), Xtime(Xtime(Xtime(w))),
               Xtime(x), Xtime(y), Xtime(z), Xtime(w));
    Interleave(Add(Xtime(Xtime(Xtime(x))), Xtime(x)), Add(Xtime(Xtime(Xtime(y))), Xtime(y)),
               Add(Xtime(Xtime(Xtime(z))), Xtime(z)), Add(Xtime(Xtime(Xtime(w))), Xtime(w)),
               x, y, z, w);
  }

  lemma {:induction false} MulDLinear(x: bv8, y: bv8, z: bv8, w: bv8)
    ensures MulD(Sum4(x, y, z, w)) == Sum4(MulD(x), MulD(y), MulD(z), MulD(w))
  {
    Cube(x, y, z, w);
    Square(x, y, z, w);
    Interleave(Xtime(Xtime(Xtime(x))), Xtime(Xtime(Xtime(y))), Xtime(Xtime(Xtime(z))), Xtime(Xtime(Xtime(w))),
               Xtime(Xtime(x)), Xtime(Xtime(y)), Xtime(Xtime(z)), Xtime(Xtime(w)));
    Interleave(Add(Xtime(Xtime(Xtime(x))), Xtime(Xtime(x))), Add(Xtime(Xtime(Xtime(y))), Xtime(Xtime(y))),
               Add(Xtime(Xtime(Xtime(z))), Xtime(Xtime(z))), Add(Xtime(Xtime(Xtime(w))), Xtime(Xtime(w))),
               x, y, z, w);
  }

  lemma {:induction false} MulELinear(x: bv8, y: bv8, z: bv8, w: bv8)
    ensures MulE(Sum4(x, y, z, w)) == Sum4(MulE(x), MulE(y), MulE(z), MulE(w))
  {
    Cube(x, y, z, w);
    Square(x, y, z, w);
    XtimeSum4(x, y, z, w);
    Interleave(Xtime(Xtime(Xtime(x))), Xtime(Xtime(Xtime(y))), Xtime(Xtime(Xtime(z))), Xtime(Xtime(Xtime(w))),
               Xtime(Xtime(x)), Xtime(Xtime(y)), Xtime(Xtime(z)), Xtime(Xtime(w)));
    Interleave(Add(Xtime(Xtime(Xtime(x))), Xtime(Xtime(x))), Add(Xtime(Xtime(Xtime(y))), Xtime(Xtime(y))),
               Add(Xtime(Xtime(Xtime(z))), Xtime(Xtime(z))), Add(Xtime(Xtime(Xtime(w))), Xtime(Xtime(w))),
               Xtime(x), Xtime(y), Xtime(z), Xtime(w));
  }

  // ---- columns ----

  /** One byte of a mixed column: {02} a + {03} b + c + d. */
  function Mix(a: bv8, b: bv8, c: bv8, d: bv8): bv8 { Sum4(Xtime(a), Mul3(b), c, d) }

  /** One byte of an unmixed column: {0e} a + {0b} b + {0d} c + {09} d. */
  function Unmix(a: bv8, b: bv8, c: bv8, d: bv8): bv8 { Sum4(MulE(a), MulB(b), MulD(c), Mul9(d)) }

  lemma {:induction false} Rotate(x: bv8, y: bv8, z: bv8, w: bv8)
    ensures Sum4(x, y, z, w) == Sum4(w, x, y, z)
  {
    AddCommutes(Add(x, y), Add(z, w));
    AddCommutes(z, w);
    Interchange(w, z, x, y);
    AddCommutes(z, y);
  }

  /** Four sums of four, summed per place. */
  lemma {:induction false} Transpose(
    a0: bv8, b0: bv8, c0: bv8, d0: bv8, a1: bv8, b1: bv8, c1: bv8, d1: bv8,
    a2: bv8, b2: bv8, c2: bv8, d2: bv8, a3: bv8, b3: bv8, c3: bv8, d3: bv8)
    ensures Sum4(Sum4(a0, b0, c0, d0), Sum4(a1, b1, c1, d1), Sum4(a2, b2, c2, d2), Sum4(a3, b3, c3, d3)) ==
            Sum4(Sum4(a0, a1, a2, a3), Sum4(b0, b1, b2, b3), Sum4(c0, c1, c2, c3), Sum4(d0, d1, d2, d3))
  {
    Interleave(a0, b0, c0, d0, a1, b1, c1, d1);
    Interleave(a2, b2, c2, d2, a3, b3, c3, d3);
    Interleave(Add(a0, a1), Add(b0, b1), Add(c0, c1), Add(d0, d1), Add(a2, a3), Add(b2, b3), Add(c2, c3), Add(d2, d3));
  }

  lemma {:induction false} SumWithZeros(a: bv8)
    ensures Sum4(a, 0, 0, 0) == a
  {}

  // The coefficients of the two matrices multiplied together.

  lemma {:induction false} Decode0(v: bv8)
    ensures Sum4(MulE(Xtime(v)), MulB(v), MulD(v), Mul9(Mul3(v))) == v
  {}

  lemma {:induction false} Decode1(v: bv8)
    ensures Sum4(MulE(Mul3(v)), MulB(Xtime(v)), MulD(v), Mul9(v)) == 0
  {}

  lemma {:induction false} Decode2(v: bv8)
    ensures Sum4(MulE(v), MulB(Mul3(v)), MulD(Xtime(v)), Mul9(v)) == 0
  {}

  lemma {:induction false} Decode3(v: bv8)
    ensures Sum4(MulE(v), MulB(v), MulD(Mul3(v)), Mul9(Xtime(v))) == 0
  {}

  /** Unmixing undoes mixing. */
  lemma {:induction false} UnmixMix(a: bv8, b: bv8, c: bv8, d: bv8)
    ensures Unmix(Mix(a, b, c, d), Mix(b, c, d, a), Mix(c, d, a, b), Mix(d, a, b, c)) == a
  {
    var a2, b2, c2, d2 := Xtime(a), Xtime(b), Xtime(c), Xtime(d);
    var a3, b3, c3, d3 := Mul3(a), Mul3(b), Mul3(c), Mul3(d);
    MulELinear(a2, b3, c, d);
    MulBLinear(b2, c3, d, a);
    Rotate(MulB(b2), MulB(c3), MulB(d), MulB(a));
    MulDLinear(c2, d3, a, b);
    Rotate(MulD(c2), MulD(d3), MulD(a), MulD(b));
    Rotate(MulD(b), MulD(c2), MulD(d3), MulD(a));
    Mul9Linear(d2, a3, b, c);
    Rotate(Mul9(a3), Mul9(b), Mul9(c), Mul9(d2));
    Transpose(MulE(a2), MulE(b3), MulE(c), MulE(d), MulB(a), MulB(b2), MulB(c3), MulB(d),
              MulD(a), MulD(b), MulD(c2), MulD(d3), Mul9(a3), Mul9(b), Mul9(c), Mul9(d2));
    Decode0(a);
    Decode1(b);
    Decode2(c);
    Decode3(d);
    SumWithZeros(a);
  }

  lemma {:induction false} Encode0(v: bv8)
    ensures Sum4(Xtime(MulE(v)), Mul3(Mul9(v)), MulD(v), MulB(v)) == v
  {}

  lemma {:induction false} Encode1(v: bv8)
    ensures Sum4(Xtime(MulB(v)), Mul3(MulE(v)), Mul9(v), MulD(v)) == 0
  {}

  lemma {:induction false} Encode2(v: bv8)
    ensures Sum4(Xtime(MulD(v)), Mul3(MulB(v)), MulE(v), Mul9(v)) == 0
  {}

  lemma {:induction false} Encode3(v: bv8)
    ensures Sum4(Xtime(Mul9(v)), Mul3(MulD(v)), MulB(v), MulE(v)) == 0
  {}

  /** Mixing undoes unmixing. */
  lemma {:induction false} MixUnmix(a: bv8, b: bv8, c: bv8, d: bv8)
    ensures Mix(Unmix(a, b, c, d), Unmix(b, c, d, a), Unmix(c, d, a, b), Unmix(d, a, b, c)) == a
  {
    XtimeSum4(MulE(a), MulB(b), MulD(c), Mul9(d));
    Mul3Linear(MulE(b), MulB(c), MulD(d), Mul9(a));
    Rotate(Mul3(MulE(b)), Mul3(MulB(c)), Mul3(MulD(d)), Mul3(Mul9(a)));
    Rotate(MulE(c), MulB(d), MulD(a), Mul9(b));
    Rotate(Mul9(b), MulE(c), MulB(d), MulD(a));
    Rotate(MulB(a), MulD(b), Mul9(c), MulE(d));
    Transpose(Xtime(MulE(a)), Xtime(MulB(b)), Xtime(MulD(c)), Xtime(Mul9(d)),
              Mul3(Mul9(a)), Mul3(MulE(b)), Mul3(MulB(c)), Mul3(MulD(d)),
              MulD(a), Mul9(b), MulE(c), MulB(d), MulB(a), MulD(b), Mul9(c), MulE(d));
    Encode0(a);
    Encode1(b);
    Encode2(c);
    Encode3(d);
    SumWithZeros(a);
  }

  lemma {:induction false} AddTwice(x: bv8, y: bv8)
    ensures Add(x, Add(x, y)) == y && Add(Add(y, x), x) == y
  {}

  /** The form the code uses: one doubling of a sum. */
  lemma {:induction false} FastMix(a: bv8, b: bv8, c: bv8, d: bv8)
    ensures Add(a, Add(Xtime(Add(a, b)), Add(Add(Add(a, b), c), d))) == Mix(a, b, c, d)
  {
    var p, q, y := Xtime(a), Xtime(b), Add(c, d);
    var t, u := Add(p, q), Add(Add(Add(a, b), c), d);
    XtimeAdd(a, b);
    AddAssociates(Add(a, b), c, d);
    AddAssociates(a, b, y);
    AddCommutes(t, u);
    AddAssociates(a, u, t);
    AddTwice(a, Add(b, y));
    AddCommutes(Add(b, y), t);
    AddAssociates(t, b, y);
    AddAssociates(p, q, b);
  }

  // ---- substitution boxes ----

  /** The entry for the low four bits of x. */
  function Pick(x: bv8, v0: bv8, v1: bv8, v2: bv8, v3: bv8, v4: bv8, v5: bv8, v6: bv8, v7: bv8,
                v8: bv8, v9: bv8, va: bv8, vb: bv8, vc: bv8, vd: bv8, ve: bv8, vf: bv8): bv8 {
    if x & 8 == 0 then
      if x & 4 == 0 then
        if x & 2 == 0 then
          if x & 1 == 0 then v0 else v1
        else
          if x & 1 == 0 then v2 else v3
      else
        if x & 2 == 0 then
          if x & 1 == 0 then v4 else v5
        else
          if x & 1 == 0 then v6 else v7
    else
      if x & 4 == 0 then
        if x & 2 == 0 then
          if x & 1 == 0 then v8 else v9
        else
          if x & 1 == 0 then va else vb
      else
        if x & 2 == 0 then
          if x & 1 == 0 then vc else vd
        else
          if x & 1 == 0 then ve else vf
  }

  /** The array sbox. */
  function Sbox(x: bv8): bv8 {
    Pick(x >> 4,
         Pick(x, 0x63, 0x7c, 0x77, 0x7b, 0xf2, 0x6b, 0x6f, 0xc5, 0x30, 0x01, 0x67, 0x2b, 0xfe, 0xd7, 0xab, 0x76),
         Pick(x, 0xca, 0x82, 0xc9, 0x7d, 0xfa, 0x59, 0x47, 0xf0, 0xad, 0xd4, 0xa2, 0xaf, 0x9c, 0xa4, 0x72, 0xc0),
         Pick(x, 0xb7, 0xfd, 0x93, 0x26, 0x36, 0x3f, 0xf7, 0xcc, 0x34, 0xa5, 0xe5, 0xf1, 0x71, 0xd8, 0x31, 0x15),
         Pick(x, 0x04, 0xc7, 0x23, 0xc3, 0x18, 0x96, 0x05, 0x9a, 0x07, 0x12, 0x80, 0xe2, 0xeb, 0x27, 0xb2, 0x75),
         Pick(x, 0x09, 0x83, 0x2c, 0x1a, 0x1b, 0x6e, 0x5a, 0xa0, 0x52, 0x3b, 0xd6, 0xb3, 0x29, 0xe3, 0x2f, 0x84),
         Pick(x, 0x53, 0xd1, 0x00, 0xed, 0x20, 0xfc, 0xb1, 0x5b, 0x6a, 0xcb, 0xbe, 0x39, 0x4a, 0x4c, 0x58, 0xcf),
         Pick(x, 0xd0, 0xef, 0xaa, 0xfb, 0x43, 0x4d, 0x33, 0x85, 0x45, 0xf9, 0x02, 0x7f, 0x50, 0x3c, 0x9f, 0xa8),
         Pick(x, 0x51, 0xa3, 0x40, 0x8f, 0x92, 0x9d, 0x38, 0xf5, 0xbc, 0xb6, 0xda, 0x21, 0x10, 0xff, 0xf3, 0xd2),
         Pick(x, 0xcd, 0x0c, 0x13, 0xec, 0x5f, 0x97, 0x44, 0x17, 0xc4, 0xa7, 0x7e, 0x3d, 0x64, 0x5d, 0x19, 0x73),
         Pick(x, 0x60, 0x81, 0x4f, 0xdc, 0x22, 0x2a, 0x90, 0x88, 0x46, 0xee, 0xb8, 0x14, 0xde, 0x5e, 0x0b, 0xdb),
         Pick(x, 0xe0, 0x32, 0x3a, 0x0a, 0x49, 0x06, 0x24, 0x5c, 0xc2, 0xd3, 0xac, 0x62, 0x91, 0x95, 0xe4, 0x79),
         Pick(x, 0xe7, 0xc8, 0x37, 0x6d, 0x8d, 0xd5, 0x4e, 0xa9, 0x6c, 0x56, 0xf4, 0xea, 0x65, 0x7a, 0xae, 0x08),
         Pick(x, 0xba, 0x78, 0x25, 0x2e, 0x1c, 0xa6, 0xb4, 0xc6, 0xe8, 0xdd, 0x74, 0x1f, 0x4b, 0xbd, 0x8b, 0x8a),
         Pick(x, 0x70, 0x3e, 0xb5, 0x66, 0x48, 0x03, 0xf6, 0x0e, 0x61, 0x35, 0x57, 0xb9, 0x86, 0xc1, 0x1d, 0x9e),
         Pick(x, 0xe1, 0xf8, 0x98, 0x11, 0x69, 0xd9, 0x8e, 0x94, 0x9b, 0x1e, 0x87, 0xe9, 0xce, 0x55, 0x28, 0xdf),
         Pick(x, 0x8c, 0xa1, 0x89, 0x0d, 0xbf, 0xe6, 0x42, 0x68, 0x41, 0x99, 0x2d, 0x0f, 0xb0, 0x54, 0xbb, 0x16))
  }

  /** The array rsbox. */
  function Rsbox(x: bv8): bv8 {
    Pick(x >> 4,
         Pick(x, 0x52, 0x09, 0x6a, 0xd5, 0x30, 0x36, 0xa5, 0x38, 0xbf, 0x40, 0xa3, 0x9e, 0x81, 0xf3, 0xd7, 0xfb),
         Pick(x, 0x7c, 0xe3, 0x39, 0x82, 0x9b, 0x2f, 0xff, 0x87, 0x34, 0x8e, 0x43, 0x44, 0xc4, 0xde, 0xe9, 0xcb),
         Pick(x, 0x54, 0x7b, 0x94, 0x32, 0xa6, 0xc2, 0x23, 0x3d, 0xee, 0x4c, 0x95, 0x0b, 0x42, 0xfa, 0xc3, 0x4e),
         Pick(x, 0x08, 0x2e, 0xa1, 0x66, 0x28, 0xd9, 0x24, 0xb2, 0x76, 0x5b, 0xa2, 0x49, 0x6d, 0x8b, 0xd1, 0x25),
         Pick(x, 0x72, 0xf8, 0xf6, 0x64, 0x86, 0x68, 0x98, 0x16, 0xd4, 0xa4, 0x5c, 0xcc, 0x5d, 0x65, 0xb6, 0x92),
         Pick(x, 0x6c, 0x70, 0x48, 0x50, 0xfd, 0xed, 0xb9, 0xda, 0x5e, 0x15, 0x46, 0x57, 0xa7, 0x8d, 0x9d, 0x84),
         Pick(x, 0x90, 0xd8, 0xab, 0x00, 0x8c, 0xbc, 0xd3, 0x0a, 0xf7, 0xe4, 0x58, 0x05, 0xb8, 0xb3, 0x45, 0x06),
         Pick(x, 0xd0, 0x2c, 0x1e, 0x8f, 0xca, 0x3f, 0x0f, 0x02, 0xc1, 0xaf, 0xbd, 0x03, 0x01, 0x13, 0x8a, 0x6b),
         Pick(x, 0x3a, 0x91, 0x11, 0x41, 0x4f, 0x67, 0xdc, 0xea, 0x97, 0xf2, 0xcf, 0xce, 0xf0, 0xb4, 0xe6, 0x73),
         Pick(x, 0x96, 0xac, 0x74, 0x22, 0xe7, 0xad, 0x35, 0x85, 0xe2, 0xf9, 0x37, 0xe8, 0x1c, 0x75, 0xdf, 0x6e),
         Pick(x, 0x47, 0xf1, 0x1a, 0x71, 0x1d, 0x29, 0xc5, 0x89, 0x6f, 0xb7, 0x62, 0x0e, 0xaa, 0x18, 0xbe, 0x1b),
         Pick(x, 0xfc, 0x56, 0x3e, 0x4b, 0xc6, 0xd2, 0x79, 0x20, 0x9a, 0xdb, 0xc0, 0xfe, 0x78, 0xcd, 0x5a, 0xf4),
         Pick(x, 0x1f, 0xdd, 0xa8, 0x33, 0x88, 0x07, 0xc7, 0x31, 0xb1, 0x12, 0x10, 0x59, 0x27, 0x80, 0xec, 0x5f),
         Pick(x, 0x60, 0x51, 0x7f, 0xa9, 0x19, 0xb5, 0x4a, 0x0d, 0x2d, 0xe5, 0x7a, 0x9f, 0x93, 0xc9, 0x9c, 0xef),
         Pick(x, 0xa0, 0xe0, 0x3b, 0x4d, 0xae, 0x2a, 0xf5, 0xb0, 0xc8, 0xeb, 0xbb, 0x3c, 0x83, 0x53, 0x99, 0x61),
         Pick(x, 0x17, 0x2b, 0x04, 0x7e, 0xba, 0x77, 0xd6, 0x26, 0xe1, 0x69, 0x14, 0x63, 0x55, 0x21, 0x0c, 0x7d))
  }

  // Each box undoes the other, a quarter of the values at a time.

  lemma {:induction false} RsboxSboxQuarter0(x: bv8)
    requires x & 0xC0 == 0x00
    ensures Rsbox(Sbox(x)) == x
  {}

  lemma {:induction false} RsboxSboxQuarter1(x: bv8)
    requires x & 0xC0 == 0x40
    ensures Rsbox(Sbox(x)) == x
  {}

  lemma {:induction false} RsboxSboxQuarter2(x: bv8)
    requires x & 0xC0 == 0x80
    ensures Rsbox(Sbox(x)) == x
  {}

  lemma {:induction false} RsboxSboxQuarter3(x: bv8)
    requires x & 0xC0 == 0xC0
    ensures Rsbox(Sbox(x)) == x
  {}

  lemma {:induction false} RsboxSbox(x: bv8)
    ensures Rsbox(Sbox(x)) == x
  {
    if x & 0xC0 == 0x00 { RsboxSboxQuarter0(x); }
    else if x & 0xC0 == 0x40 { RsboxSboxQuarter1(x); }
    else if x & 0xC0 == 0x80 { RsboxSboxQuarter2(x); }
    else { RsboxSboxQuarter3(x); }
  }

  lemma {:induction false} SboxRsboxQuarter0(x: bv8)
    requires x & 0xC0 == 0x00
    ensures Sbox(Rsbox(x)) == x
  {}

  lemma {:induction false} SboxRsboxQuarter1(x: bv8)
    requires x & 0xC0 == 0x40
    ensures Sbox(Rsbox(x)) == x
  {}

  lemma {:induction false} SboxRsboxQuarter2(x: bv8)
    requires x & 0xC0 == 0x80
    ensures Sbox(Rsbox(x)) == x
  {}

  lemma {:induction false} SboxRsboxQuarter3(x: bv8)
    requires x & 0xC0 == 0xC0
    ensures Sbox(Rsbox(x)) == x
  {}

  lemma {:induction false} SboxRsbox(x: bv8)
    ensures Sbox(Rsbox(x)) == x
  {
    if x & 0xC0 == 0x00 { SboxRsboxQuarter0(x); }
    else if x & 0xC0 == 0x40 { SboxRsboxQuarter1(x); }
    else if x & 0xC0 == 0x80 { SboxRsboxQuarter2(x); }
    else { SboxRsboxQuarter3(x); }
  }

  /** Either box. Counting k down first keeps the tables out of proofs about
      whole states. */
  function Box(forward: bool, x: bv8, k: nat): bv8 {
    if k > 0 then Box(forward, x, k - 1) else if forward then Sbox(x) else Rsbox(x)
  }

  lemma {:induction false} BoxValue(forward: bool, x: bv8, k: nat)
    ensures Box(forward, x, k) == if forward then Sbox(x) else Rsbox(x)
  {
    if k > 0 { BoxValue(forward, x, k - 1); }
  }

  lemma {:induction false} BoxUndo(forward: bool, x: bv8, j: nat, k: nat)
    ensures Box(!forward, Box(forward, x, j), k) == x
  {
    BoxValue(forward, x, j);
    BoxValue(!forward, Box(forward, x, j), k);
    if forward { RsboxSbox(x); } else { SboxRsbox(x); }
  }
}
