/** SHA-256 pinned to published numbers: the digest of "abc" from the standard's
    example, and the constants as roots of primes. */
module Sha256Vectors {
  import opened Radix
  import opened Bytes
  import opened Sha256Spec
  import opened Sha256

  // ---- the message schedule of "abc" ----

  /** Eight words of the schedule from t on. */
  ghost predicate Words(block: seq<Byte>, t: nat, ws: seq<bv32>)
    requires |block| == 64
  {
    && |ws| == 8
    && Schedule(block, t) == ws[0] && Schedule(block, t + 1) == ws[1]
    && Schedule(block, t + 2) == ws[2] && Schedule(block, t + 3) == ws[3]
    && Schedule(block, t + 4) == ws[4] && Schedule(block, t + 5) == ws[5]
    && Schedule(block, t + 6) == ws[6] && Schedule(block, t + 7) == ws[7]
  }

  function NextWord(w2: bv32, w7: bv32, w15: bv32, w16: bv32): bv32 {
    Sum4(SmallSigma1(w2), w7, SmallSigma0(w15), w16)
  }

  lemma {:induction false} ScheduleStep(block: seq<Byte>, t: nat)
    requires |block| == 64 && t >= 16
    ensures Schedule(block, t) ==
            NextWord(Schedule(block, t - 2), Schedule(block, t - 7), Schedule(block, t - 15), Schedule(block, t - 16))
  {}

  /** Eight words follow from the sixteen before them. */
  ghost predicate Follows(a: seq<bv32>, b: seq<bv32>, c: seq<bv32>)
    requires |a| == |b| == |c| == 8
  {
    && c[0] == NextWord(b[6], b[1], a[1], a[0]) && c[1] == NextWord(b[7], b[2], a[2], a[1])
    && c[2] == NextWord(c[0], b[3], a[3], a[2]) && c[3] == NextWord(c[1], b[4], a[4], a[3])
    && c[4] == NextWord(c[2], b[5], a[5], a[4]) && c[5] == NextWord(c[3], b[6], a[6], a[5])
    && c[6] == NextWord(c[4], b[7], a[7], a[6]) && c[7] == NextWord(c[5], c[0], b[0], a[7])
  }

  /** Eight more words from the sixteen before them. */
  lemma {:induction false} MoreWords(block: seq<Byte>, t: nat, a: seq<bv32>, b: seq<bv32>, c: seq<bv32>)
    requires |block| == 64 && t >= 16 && Words(block, t - 16, a) && Words(block, t - 8, b)
    requires |c| == 8 && Follows(a, b, c)
    ensures Words(block, t, c)
  {
    ScheduleStep(block, t);
    ScheduleStep(block, t + 1);
    ScheduleStep(block, t + 2);
    ScheduleStep(block, t + 3);
    ScheduleStep(block, t + 4);
    ScheduleStep(block, t + 5);
    ScheduleStep(block, t + 6);
    ScheduleStep(block, t + 7);
  }

  /** The words of "abc", eight at a time. */
  function AbcWords(j: nat): (ws: seq<bv32>)
    requires j < 8
    ensures |ws| == 8
  {
    match j
    case 0 => [0x61626380, 0x00000000, 0x00000000, 0x00000000, 0x00000000, 0x00000000, 0x00000000, 0x00000000]
    case 1 => [0x00000000, 0x00000000, 0x00000000, 0x00000000, 0x00000000, 0x00000000, 0x00000000, 0x00000018]
    case 2 => [0x61626380, 0x000F0000, 0x7DA86405, 0x600003C6, 0x3E9D7B78, 0x0183FC00, 0x12DCBFDB, 0xE2E2C38E]
    case 3 => [0xC8215C1A, 0xB73679A2, 0xE5BC3909, 0x32663C5B, 0x9D209D67, 0xEC8726CB, 0x702138A4, 0xD3B7973B]
    case 4 => [0x93F5997F, 0x3B68BA73, 0xAFF4FFC1, 0xF10A5C62, 0x0A8B3996, 0x72AF830A, 0x9409E33E, 0x24641522]
    case 5 => [0x9F47BF94, 0xF0A64F5A, 0x3E246A79, 0x27333BA3, 0x0C4763F2, 0x840ABF27, 0x7A290D5D, 0x065C43DA]
    case 6 => [0xFB3E89CB, 0xCC7617DB, 0xB9E66C34, 0xA9993667, 0x84BADEDD, 0xC21462BC, 0x1487472C, 0xB20F7A99]
    case _ => [0xEF57B9CD, 0xEBE6B238, 0x9FE3095E, 0x78BC8D4B, 0xA43FCF15, 0x668B2FF8, 0xEEABA2CC, 0x12B1EDEB]
  }

  lemma {:induction false} AbcWordsNext(j: nat)
    requires 2 <= j < 8
    ensures Follows(AbcWords(j - 2), AbcWords(j - 1), AbcWords(j))
  {
    match j {
      case 2 => AbcWordsNext2();
      case 3 => AbcWordsNext3();
      case 4 => AbcWordsNext4();
      case 5 => AbcWordsNext5();
      case 6 => AbcWordsNext6();
      case _ => AbcWordsNext7();
    }
  }

  lemma {:induction false} AbcWordsNext2()
    ensures Follows(AbcWords(0), AbcWords(1), AbcWords(2))
  {
    assert NextWord(0x00000000, 0x00000000, 0x00000000, 0x61626380) == 0x61626380;
    assert NextWord(0x00000018, 0x00000000, 0x00000000, 0x00000000) == 0x000F0000;
    assert NextWord(0x61626380, 0x00000000, 0x00000000, 0x00000000) == 0x7DA86405;
    assert NextWord(0x000F0000, 0x00000000, 0x00000000, 0x00000000) == 0x600003C6;
    assert NextWord(0x7DA86405, 0x00000000, 0x00000000, 0x00000000) == 0x3E9D7B78;
    assert NextWord(0x600003C6, 0x00000000, 0x00000000, 0x00000000) == 0x0183FC00;
    assert NextWord(0x3E9D7B78, 0x00000018, 0x00000000, 0x00000000) == 0x12DCBFDB;
    assert NextWord(0x0183FC00, 0x61626380, 0x00000000, 0x00000000) == 0xE2E2C38E;
  }

  lemma {:induction false} AbcWordsNext3()
    ensures Follows(AbcWords(1), AbcWords(2), AbcWords(3))
  {
    assert NextWord(0x12DCBFDB, 0x000F0000, 0x00000000, 0x00000000) == 0xC8215C1A;
    assert NextWord(0xE2E2C38E, 0x7DA86405, 0x00000000, 0x00000000) == 0xB73679A2;
    assert NextWord(0xC8215C1A, 0x600003C6, 0x00000000, 0x00000000) == 0xE5BC3909;
    assert NextWord(0xB73679A2, 0x3E9D7B78, 0x00000000, 0x00000000) == 0x32663C5B;
    assert NextWord(0xE5BC3909, 0x0183FC00, 0x00000000, 0x00000000) == 0x9D209D67;
    assert NextWord(0x32663C5B, 0x12DCBFDB, 0x00000000, 0x00000000) == 0xEC8726CB;
    assert NextWord(0x9D209D67, 0xE2E2C38E, 0x00000018, 0x00000000) == 0x702138A4;
    assert NextWord(0xEC8726CB, 0xC8215C1A, 0x61626380, 0x00000018) == 0xD3B7973B;
  }

  lemma {:induction false} AbcWordsNext4()
    ensures Follows(AbcWords(2), AbcWords(3), AbcWords(4))
  {
    assert NextWord(0x702138A4, 0xB73679A2, 0x000F0000, 0x61626380) == 0x93F5997F;
    assert NextWord(0xD3B7973B, 0xE5BC3909, 0x7DA86405, 0x000F0000) == 0x3B68BA73;
    assert NextWord(0x93F5997F, 0x32663C5B, 0x600003C6, 0x7DA86405) == 0xAFF4FFC1;
    assert NextWord(0x3B68BA73, 0x9D209D67, 0x3E9D7B78, 0x600003C6) == 0xF10A5C62;
    assert NextWord(0xAFF4FFC1, 0xEC8726CB, 0x0183FC00, 0x3E9D7B78) == 0x0A8B3996;
    assert NextWord(0xF10A5C62, 0x702138A4, 0x12DCBFDB, 0x0183FC00) == 0x72AF830A;
    assert NextWord(0x0A8B3996, 0xD3B7973B, 0xE2E2C38E, 0x12DCBFDB) == 0x9409E33E;
    assert NextWord(0x72AF830A, 0x93F5997F, 0xC8215C1A, 0xE2E2C38E) == 0x24641522;
  }

  lemma {:induction false} AbcWordsNext5()
    ensures Follows(AbcWords(3), AbcWords(4), AbcWords(5))
  {
    assert NextWord(0x9409E33E, 0x3B68BA73, 0xB73679A2, 0xC8215C1A) == 0x9F47BF94;
    assert NextWord(0x24641522, 0xAFF4FFC1, 0xE5BC3909, 0xB73679A2) == 0xF0A64F5A;
    assert NextWord(0x9F47BF94, 0xF10A5C62, 0x32663C5B, 0xE5BC3909) == 0x3E246A79;
    assert NextWord(0xF0A64F5A, 0x0A8B3996, 0x9D209D67, 0x32663C5B) == 0x27333BA3;
    assert NextWord(0x3E246A79, 0x72AF830A, 0xEC8726CB, 0x9D209D67) == 0x0C4763F2;
    assert NextWord(0x27333BA3, 0x9409E33E, 0x702138A4, 0xEC8726CB) == 0x840ABF27;
    assert NextWord(0x0C4763F2, 0x24641522, 0xD3B7973B, 0x702138A4) == 0x7A290D5D;
    assert NextWord(0x840ABF27, 0x9F47BF94, 0x93F5997F, 0xD3B7973B) == 0x065C43DA;
  }

  lemma {:induction false} AbcWordsNext6()
    ensures Follows(AbcWords(4), AbcWords(5), AbcWords(6))
  {
    assert NextWord(0x7A290D5D, 0xF0A64F5A, 0x3B68BA73, 0x93F5997F) == 0xFB3E89CB;
    assert NextWord(0x065C43DA, 0x3E246A79, 0xAFF4FFC1, 0x3B68BA73) == 0xCC7617DB;
    assert NextWord(0xFB3E89CB, 0x27333BA3, 0xF10A5C62, 0xAFF4FFC1) == 0xB9E66C34;
    assert NextWord(0xCC7617DB, 0x0C4763F2, 0x0A8B3996, 0xF10A5C62) == 0xA9993667;
    assert NextWord(0xB9E66C34, 0x840ABF27, 0x72AF830A, 0x0A8B3996) == 0x84BADEDD;
    assert NextWord(0xA9993667, 0x7A290D5D, 0x9409E33E, 0x72AF830A) == 0xC21462BC;
    assert NextWord(0x84BADEDD, 0x065C43DA, 0x24641522, 0x9409E33E) == 0x1487472C;
    assert NextWord(0xC21462BC, 0xFB3E89CB, 0x9F47BF94, 0x24641522) == 0xB20F7A99;
  }

  lemma {:induction false} AbcWordsNext7()
    ensures Follows(AbcWords(5), AbcWords(6), AbcWords(7))
  {
    assert NextWord(0x1487472C, 0xCC7617DB, 0xF0A64F5A, 0x9F47BF94) == 0xEF57B9CD;
    assert NextWord(0xB20F7A99, 0xB9E66C34, 0x3E246A79, 0xF0A64F5A) == 0xEBE6B238;
    assert NextWord(0xEF57B9CD, 0xA9993667, 0x27333BA3, 0x3E246A79) == 0x9FE3095E;
    assert NextWord(0xEBE6B238, 0x84BADEDD, 0x0C4763F2, 0x27333BA3) == 0x78BC8D4B;
    assert NextWord(0x9FE3095E, 0xC21462BC, 0x840ABF27, 0x0C4763F2) == 0xA43FCF15;
    assert NextWord(0x78BC8D4B, 0x1487472C, 0x7A290D5D, 0x840ABF27) == 0x668B2FF8;
    assert NextWord(0xA43FCF15, 0xB20F7A99, 0x065C43DA, 0x7A290D5D) == 0xEEABA2CC;
    assert NextWord(0x668B2FF8, 0xEF57B9CD, 0xFB3E89CB, 0x065C43DA) == 0x12B1EDEB;
  }

  /** The padded message, byte by byte. */
  ghost predicate IsAbc(block: seq<Byte>) {
    && |block| == 64
    && block[0] == 0x61 && block[1] == 0x62 && block[2] == 0x63 && block[3] == 0x80
    && (forall i | 4 <= i < 63 :: block[i] == 0) && block[63] == 24
  }

  lemma {:induction false} AbcSchedule(block: seq<Byte>, j: nat, t: nat)
    requires IsAbc(block) && j < 8 && t == 8 * j
    ensures Words(block, t, AbcWords(j))
  {
    if j < 2 {
      AbcBlock(block, t);
    } else {
      AbcSchedule(block, j - 1, t - 8);
      AbcSchedule(block, j - 2, t - 16);
      AbcMore(block, t, j, AbcWords(j - 2), AbcWords(j - 1), AbcWords(j));
    }
  }

  lemma {:induction false} AbcMore(block: seq<Byte>, t: nat, j: nat, a: seq<bv32>, b: seq<bv32>, c: seq<bv32>)
    requires |block| == 64 && 2 <= j < 8 && t == 8 * j
    requires a == AbcWords(j - 2) && b == AbcWords(j - 1) && c == AbcWords(j)
    requires Words(block, t - 16, a) && Words(block, t - 8, b)
    ensures Words(block, t, c)
  {
    AbcWordsNext(j);
    MoreWords(block, t, a, b, c);
  }

  lemma {:induction false} AbcBlock(block: seq<Byte>, t: nat)
    requires IsAbc(block) && t in {0, 8}
    ensures Words(block, t, AbcWords(t / 8))
  {
    forall i: nat | i < 16
      ensures BlockWord(block, i) == if i == 0 then 0x61626380 else if i == 15 then 0x18 else 0
    {
      AbcWord(block, i);
    }
  }

  lemma {:induction false} AbcWord(block: seq<Byte>, i: nat)
    requires IsAbc(block) && i < 16
    ensures BlockWord(block, i) == if i == 0 then 0x61626380 else if i == 15 then 0x18 else 0
  {}

  // ---- the rounds of "abc" ----

  lemma {:induction false} RoundStep(r: Regs, block: seq<Byte>, t: nat, s: Regs, k: bv32, w: bv32)
    requires |block| == 64 && t < 64 && Rounds(r, block, t) == s && K(t) == k && Schedule(block, t) == w
    ensures Rounds(r, block, t + 1) == Round(s, k, w)
  {}

  /** Eight rounds from s on, state by state. */
  ghost predicate Chain(s: Regs, ks: seq<bv32>, ws: seq<bv32>, ss: seq<Regs>)
    requires |ks| == |ws| == |ss| == 8
  {
    && Round(s, ks[0], ws[0]) == ss[0] && Round(ss[0], ks[1], ws[1]) == ss[1]
    && Round(ss[1], ks[2], ws[2]) == ss[2] && Round(ss[2], ks[3], ws[3]) == ss[3]
    && Round(ss[3], ks[4], ws[4]) == ss[4] && Round(ss[4], ks[5], ws[5]) == ss[5]
    && Round(ss[5], ks[6], ws[6]) == ss[6] && Round(ss[6], ks[7], ws[7]) == ss[7]
  }

  lemma {:induction false} RunChain(
    r: Regs, block: seq<Byte>, t: nat, s: Regs, ks: seq<bv32>, ws: seq<bv32>, ss: seq<Regs>)
    requires |block| == 64 && t + 8 <= 64 && Rounds(r, block, t) == s
    requires |ks| == |ss| == 8 && AreConstants(ks, t) && Words(block, t, ws) && Chain(s, ks, ws, ss)
    ensures Rounds(r, block, t + 8) == ss[7]
  {
    RoundStep(r, block, t, s, ks[0], ws[0]);
    RoundStep(r, block, t + 1, ss[0], ks[1], ws[1]);
    RoundStep(r, block, t + 2, ss[1], ks[2], ws[2]);
    RoundStep(r, block, t + 3, ss[2], ks[3], ws[3]);
    RoundStep(r, block, t + 4, ss[3], ks[4], ws[4]);
    RoundStep(r, block, t + 5, ss[4], ks[5], ws[5]);
    RoundStep(r, block, t + 6, ss[5], ks[6], ws[6]);
    RoundStep(r, block, t + 7, ss[6], ks[7], ws[7]);
  }

  /** The working variables of "abc" after rounds 8j + 1 to 8j + 8. */
  function AbcStates(j: nat): (ss: seq<Regs>)
    requires j < 8
    ensures |ss| == 8
  {
    match j
    case 0 => [
      Regs(0x5D6AEBCD, 0x6A09E667, 0xBB67AE85, 0x3C6EF372, 0xFA2A4622, 0x510E527F, 0x9B05688C, 0x1F83D9AB),
      Regs(0x5A6AD9AD, 0x5D6AEBCD, 0x6A09E667, 0xBB67AE85, 0x78CE7989, 0xFA2A4622, 0x510E527F, 0x9B05688C),
      Regs(0xC8C347A7, 0x5A6AD9AD, 0x5D6AEBCD, 0x6A09E667, 0xF92939EB, 0x78CE7989, 0xFA2A4622, 0x510E527F),
      Regs(0xD550F666, 0xC8C347A7, 0x5A6AD9AD, 0x5D6AEBCD, 0x24E00850, 0xF92939EB, 0x78CE7989, 0xFA2A4622),
      Regs(0x04409A6A, 0xD550F666, 0xC8C347A7, 0x5A6AD9AD, 0x43ADA245, 0x24E00850, 0xF92939EB, 0x78CE7989),
      Regs(0x2B4209F5, 0x04409A6A, 0xD550F666, 0xC8C347A7, 0x714260AD, 0x43ADA245, 0x24E00850, 0xF92939EB),
      Regs(0xE5030380, 0x2B4209F5, 0x04409A6A, 0xD550F666, 0x9B27A401, 0x714260AD, 0x43ADA245, 0x24E00850),
      Regs(0x85A07B5F, 0xE5030380, 0x2B4209F5, 0x04409A6A, 0x0C657A79, 0x9B27A401, 0x714260AD, 0x43ADA245)]
    case 1 => [
      Regs(0x8E04ECB9, 0x85A07B5F, 0xE5030380, 0x2B4209F5, 0x32CA2D8C, 0x0C657A79, 0x9B27A401, 0x714260AD),
      Regs(0x8C87346B, 0x8E04ECB9, 0x85A07B5F, 0xE5030380, 0x1CC92596, 0x32CA2D8C, 0x0C657A79, 0x9B27A401),
      Regs(0x4798A3F4, 0x8C87346B, 0x8E04ECB9, 0x85A07B5F, 0x436B23E8, 0x1CC92596, 0x32CA2D8C, 0x0C657A79),
      Regs(0xF71FC5A9, 0x4798A3F4, 0x8C87346B, 0x8E04ECB9, 0x816FD6E9, 0x436B23E8, 0x1CC92596, 0x32CA2D8C),
      Regs(0x87912990, 0xF71FC5A9, 0x4798A3F4, 0x8C87346B, 0x1E578218, 0x816FD6E9, 0x436B23E8, 0x1CC92596),
      Regs(0xD932EB16, 0x87912990, 0xF71FC5A9, 0x4798A3F4, 0x745A48DE, 0x1E578218, 0x816FD6E9, 0x436B23E8),
      Regs(0xC0645FDE, 0xD932EB16, 0x87912990, 0xF71FC5A9, 0x0B92F20C, 0x745A48DE, 0x1E578218, 0x816FD6E9),
      Regs(0xB0FA238E, 0xC0645FDE, 0xD932EB16, 0x87912990, 0x07590DCD, 0x0B92F20C, 0x745A48DE, 0x1E578218)]
    case 2 => [
      Regs(0x21DA9A9B, 0xB0FA238E, 0xC0645FDE, 0xD932EB16, 0x8034229C, 0x07590DCD, 0x0B92F20C, 0x745A48DE),
      Regs(0xC2FBD9D1, 0x21DA9A9B, 0xB0FA238E, 0xC0645FDE, 0x846EE454, 0x8034229C, 0x07590DCD, 0x0B92F20C),
      Regs(0xFE777BBF, 0xC2FBD9D1, 0x21DA9A9B, 0xB0FA238E, 0xCC899961, 0x846EE454, 0x8034229C, 0x07590DCD),
      Regs(0xE1F20C33, 0xFE777BBF, 0xC2FBD9D1, 0x21DA9A9B, 0xB0638179, 0xCC899961, 0x846EE454, 0x8034229C),
      Regs(0x9DC68B63, 0xE1F20C33, 0xFE777BBF, 0xC2FBD9D1, 0x8ADA8930, 0xB0638179, 0xCC899961, 0x846EE454),
      Regs(0xC2606D6D, 0x9DC68B63, 0xE1F20C33, 0xFE777BBF, 0xE1257970, 0x8ADA8930, 0xB0638179, 0xCC899961),
      Regs(0xA7A3623F, 0xC2606D6D, 0x9DC68B63, 0xE1F20C33, 0x49F5114A, 0xE1257970, 0x8ADA8930, 0xB0638179),
      Regs(0xC5D53D8D, 0xA7A3623F, 0xC2606D6D, 0x9DC68B63, 0xAA47C347, 0x49F5114A, 0xE1257970, 0x8ADA8930)]
    case 3 => [
      Regs(0x1C2C2838, 0xC5D53D8D, 0xA7A3623F, 0xC2606D6D, 0x2823EF91, 0xAA47C347, 0x49F5114A, 0xE1257970),
      Regs(0xCDE8037D, 0x1C2C2838, 0xC5D53D8D, 0xA7A3623F, 0x14383D8E, 0x2823EF91, 0xAA47C347, 0x49F5114A),
      Regs(0xB62EC4BC, 0xCDE8037D, 0x1C2C2838, 0xC5D53D8D, 0xC74C6516, 0x14383D8E, 0x2823EF91, 0xAA47C347),
      Regs(0x77D37528, 0xB62EC4BC, 0xCDE8037D, 0x1C2C2838, 0xEDFFBFF8, 0xC74C6516, 0x14383D8E, 0x2823EF91),
      Regs(0x363482C9, 0x77D37528, 0xB62EC4BC, 0xCDE8037D, 0x6112A3B7, 0xEDFFBFF8, 0xC74C6516, 0x14383D8E),
      Regs(0xA0060B30, 0x363482C9, 0x77D37528, 0xB62EC4BC, 0xADE79437, 0x6112A3B7, 0xEDFFBFF8, 0xC74C6516),
      Regs(0xEA992A22, 0xA0060B30, 0x363482C9, 0x77D37528, 0x0109AB3A, 0xADE79437, 0x6112A3B7, 0xEDFFBFF8),
      Regs(0x73B33BF5, 0xEA992A22, 0xA0060B30, 0x363482C9, 0xBA591112, 0x0109AB3A, 0xADE79437, 0x6112A3B7)]
    case 4 => [
      Regs(0x98E12507, 0x73B33BF5, 0xEA992A22, 0xA0060B30, 0x9CD9F5F6, 0xBA591112, 0x0109AB3A, 0xADE79437),
      Regs(0xFE604DF5, 0x98E12507, 0x73B33BF5, 0xEA992A22, 0x59249DD3, 0x9CD9F5F6, 0xBA591112, 0x0109AB3A),
      Regs(0xA9A7738C, 0xFE604DF5, 0x98E12507, 0x73B33BF5, 0x085F3833, 0x59249DD3, 0x9CD9F5F6, 0xBA591112),
      Regs(0x65A0CFE4, 0xA9A7738C, 0xFE604DF5, 0x98E12507, 0xF4B002D6, 0x085F3833, 0x59249DD3, 0x9CD9F5F6),
      Regs(0x41A65CB1, 0x65A0CFE4, 0xA9A7738C, 0xFE604DF5, 0x0772A26B, 0xF4B002D6, 0x085F3833, 0x59249DD3),
      Regs(0x34DF1604, 0x41A65CB1, 0x65A0CFE4, 0xA9A7738C, 0xA507A53D, 0x0772A26B, 0xF4B002D6, 0x085F3833),
      Regs(0x6DC57A8A, 0x34DF1604, 0x41A65CB1, 0x65A0CFE4, 0xF0781BC8, 0xA507A53D, 0x0772A26B, 0xF4B002D6),
      Regs(0x79EA687A, 0x6DC57A8A, 0x34DF1604, 0x41A65CB1, 0x1EFBC0A0, 0xF0781BC8, 0xA507A53D, 0x0772A26B)]
    case 5 => [
      Regs(0xD6670766, 0x79EA687A, 0x6DC57A8A, 0x34DF1604, 0x26352D63, 0x1EFBC0A0, 0xF0781BC8, 0xA507A53D),
      Regs(0xDF46652F, 0xD6670766, 0x79EA687A, 0x6DC57A8A, 0x838B2711, 0x26352D63, 0x1EFBC0A0, 0xF0781BC8),
      Regs(0x17AA0DFE, 0xDF46652F, 0xD6670766, 0x79EA687A, 0xDECD4715, 0x838B2711, 0x26352D63, 0x1EFBC0A0),
      Regs(0x9D4BAF93, 0x17AA0DFE, 0xDF46652F, 0xD6670766, 0xFDA24C2E, 0xDECD4715, 0x838B2711, 0x26352D63),
      Regs(0x26628815, 0x9D4BAF93, 0x17AA0DFE, 0xDF46652F, 0xA80F11F0, 0xFDA24C2E, 0xDECD4715, 0x838B2711),
      Regs(0x72AB4B91, 0x26628815, 0x9D4BAF93, 0x17AA0DFE, 0xB7755DA1, 0xA80F11F0, 0xFDA24C2E, 0xDECD4715),
      Regs(0xA14C14B0, 0x72AB4B91, 0x26628815, 0x9D4BAF93, 0xD57B94A9, 0xB7755DA1, 0xA80F11F0, 0xFDA24C2E),
      Regs(0x4172328D, 0xA14C14B0, 0x72AB4B91, 0x26628815, 0xFECF0BC6, 0xD57B94A9, 0xB7755DA1, 0xA80F11F0)]
    case 6 => [
      Regs(0x05757CEB, 0x4172328D, 0xA14C14B0, 0x72AB4B91, 0xBD714038, 0xFECF0BC6, 0xD57B94A9, 0xB7755DA1),
      Regs(0xF11BFAA8, 0x05757CEB, 0x4172328D, 0xA14C14B0, 0x6E5C390C, 0xBD714038, 0xFECF0BC6, 0xD57B94A9),
      Regs(0x7A0508A1, 0xF11BFAA8, 0x05757CEB, 0x4172328D, 0x52F1CCF7, 0x6E5C390C, 0xBD714038, 0xFECF0BC6),
      Regs(0x886E7A22, 0x7A0508A1, 0xF11BFAA8, 0x05757CEB, 0x49231C1E, 0x52F1CCF7, 0x6E5C390C, 0xBD714038),
      Regs(0x101FD28F, 0x886E7A22, 0x7A0508A1, 0xF11BFAA8, 0x529E7D00, 0x49231C1E, 0x52F1CCF7, 0x6E5C390C),
      Regs(0xF5702FDB, 0x101FD28F, 0x886E7A22, 0x7A0508A1, 0x9F4787C3, 0x529E7D00, 0x49231C1E, 0x52F1CCF7),
      Regs(0x3EC45CDB, 0xF5702FDB, 0x101FD28F, 0x886E7A22, 0xE50E1B4F, 0x9F4787C3, 0x529E7D00, 0x49231C1E),
      Regs(0x38CC9913, 0x3EC45CDB, 0xF5702FDB, 0x101FD28F, 0x54CB266B, 0xE50E1B4F, 0x9F4787C3, 0x529E7D00)]
    case _ => [
      Regs(0xFCD1887B, 0x38CC9913, 0x3EC45CDB, 0xF5702FDB, 0x9B5E906C, 0x54CB266B, 0xE50E1B4F, 0x9F4787C3),
      Regs(0xC062D46F, 0xFCD1887B, 0x38CC9913, 0x3EC45CDB, 0x7E44008E, 0x9B5E906C, 0x54CB266B, 0xE50E1B4F),
      Regs(0xFFB70472, 0xC062D46F, 0xFCD1887B, 0x38CC9913, 0x6D83BFC6, 0x7E44008E, 0x9B5E906C, 0x54CB266B),
      Regs(0xB6AE8FFF, 0xFFB70472, 0xC062D46F, 0xFCD1887B, 0xB21BAD3D, 0x6D83BFC6, 0x7E44008E, 0x9B5E906C),
      Regs(0xB85E2CE9, 0xB6AE8FFF, 0xFFB70472, 0xC062D46F, 0x961F4894, 0xB21BAD3D, 0x6D83BFC6, 0x7E44008E),
      Regs(0x04D24D6C, 0xB85E2CE9, 0xB6AE8FFF, 0xFFB70472, 0x948D25B6, 0x961F4894, 0xB21BAD3D, 0x6D83BFC6),
      Regs(0xD39A2165, 0x04D24D6C, 0xB85E2CE9, 0xB6AE8FFF, 0xFB121210, 0x948D25B6, 0x961F4894, 0xB21BAD3D),
      Regs(0x506E3058, 0xD39A2165, 0x04D24D6C, 0xB85E2CE9, 0x5EF50F24, 0xFB121210, 0x948D25B6, 0x961F4894)]
  }

  /** The working variables before group j of eight rounds. */
  function AbcStart(j: nat): Regs
    requires j <= 8
  {
    match j
    case 0 => Regs(0x6A09E667, 0xBB67AE85, 0x3C6EF372, 0xA54FF53A, 0x510E527F, 0x9B05688C, 0x1F83D9AB, 0x5BE0CD19)
    case 1 => Regs(0x85A07B5F, 0xE5030380, 0x2B4209F5, 0x04409A6A, 0x0C657A79, 0x9B27A401, 0x714260AD, 0x43ADA245)
    case 2 => Regs(0xB0FA238E, 0xC0645FDE, 0xD932EB16, 0x87912990, 0x07590DCD, 0x0B92F20C, 0x745A48DE, 0x1E578218)
    case 3 => Regs(0xC5D53D8D, 0xA7A3623F, 0xC2606D6D, 0x9DC68B63, 0xAA47C347, 0x49F5114A, 0xE1257970, 0x8ADA8930)
    case 4 => Regs(0x73B33BF5, 0xEA992A22, 0xA0060B30, 0x363482C9, 0xBA591112, 0x0109AB3A, 0xADE79437, 0x6112A3B7)
    case 5 => Regs(0x79EA687A, 0x6DC57A8A, 0x34DF1604, 0x41A65CB1, 0x1EFBC0A0, 0xF0781BC8, 0xA507A53D, 0x0772A26B)
    case 6 => Regs(0x4172328D, 0xA14C14B0, 0x72AB4B91, 0x26628815, 0xFECF0BC6, 0xD57B94A9, 0xB7755DA1, 0xA80F11F0)
    case 7 => Regs(0x38CC9913, 0x3EC45CDB, 0xF5702FDB, 0x101FD28F, 0x54CB266B, 0xE50E1B4F, 0x9F4787C3, 0x529E7D00)
    case _ => Regs(0x506E3058, 0xD39A2165, 0x04D24D6C, 0xB85E2CE9, 0x5EF50F24, 0xFB121210, 0x948D25B6, 0x961F4894)
  }

  lemma {:induction false} AbcChain(j: nat)
    requires j < 8
    ensures Chain(AbcStart(j), Constants(j), AbcWords(j), AbcStates(j))
  {
    match j {
      case 0 => AbcChain0();
      case 1 => AbcChain1();
      case 2 => AbcChain2();
      case 3 => AbcChain3();
      case 4 => AbcChain4();
      case 5 => AbcChain5();
      case 6 => AbcChain6();
      case _ => AbcChain7();
    }
  }

  lemma {:induction false} AbcChain0()
    ensures Chain(AbcStart(0), Constants(0), AbcWords(0), AbcStates(0))
  {
    assert Round(Regs(0x6A09E667, 0xBB67AE85, 0x3C6EF372, 0xA54FF53A, 0x510E527F, 0x9B05688C, 0x1F83D9AB, 0x5BE0CD19),
                 0x428A2F98, 0x61626380) ==
           Regs(0x5D6AEBCD, 0x6A09E667, 0xBB67AE85, 0x3C6EF372, 0xFA2A4622, 0x510E527F, 0x9B05688C, 0x1F83D9AB);
    assert Round(Regs(0x5D6AEBCD, 0x6A09E667, 0xBB67AE85, 0x3C6EF372, 0xFA2A4622, 0x510E527F, 0x9B05688C, 0x1F83D9AB),
                 0x71374491, 0x00000000) ==
           Regs(0x5A6AD9AD, 0x5D6AEBCD, 0x6A09E667, 0xBB67AE85, 0x78CE7989, 0xFA2A4622, 0x510E527F, 0x9B05688C);
    assert Round(Regs(0x5A6AD9AD, 0x5D6AEBCD, 0x6A09E667, 0xBB67AE85, 0x78CE7989, 0xFA2A4622, 0x510E527F, 0x9B05688C),
                 0xB5C0FBCF, 0x00000000) ==
           Regs(0xC8C347A7, 0x5A6AD9AD, 0x5D6AEBCD, 0x6A09E667, 0xF92939EB, 0x78CE7989, 0xFA2A4622, 0x510E527F);
    assert Round(Regs(0xC8C347A7, 0x5A6AD9AD, 0x5D6AEBCD, 0x6A09E667, 0xF92939EB, 0x78CE7989, 0xFA2A4622, 0x510E527F),
                 0xE9B5DBA5, 0x00000000) ==
           Regs(0xD550F666, 0xC8C347A7, 0x5A6AD9AD, 0x5D6AEBCD, 0x24E00850, 0xF92939EB, 0x78CE7989, 0xFA2A4622);
    assert Round(Regs(0xD550F666, 0xC8C347A7, 0x5A6AD9AD, 0x5D6AEBCD, 0x24E00850, 0xF92939EB, 0x78CE7989, 0xFA2A4622),
                 0x3956C25B, 0x00000000) ==
           Regs(0x04409A6A, 0xD550F666, 0xC8C347A7, 0x5A6AD9AD, 0x43ADA245, 0x24E00850, 0xF92939EB, 0x78CE7989);
    assert Round(Regs(0x04409A6A, 0xD550F666, 0xC8C347A7, 0x5A6AD9AD, 0x43ADA245, 0x24E00850, 0xF92939EB, 0x78CE7989),
                 0x59F111F1, 0x00000000) ==
           Regs(0x2B4209F5, 0x04409A6A, 0xD550F666, 0xC8C347A7, 0x714260AD, 0x43ADA245, 0x24E00850, 0xF92939EB);
    assert Round(Regs(0x2B4209F5, 0x04409A6A, 0xD550F666, 0xC8C347A7, 0x714260AD, 0x43ADA245, 0x24E00850, 0xF92939EB),
                 0x923F82A4, 0x00000000) ==
           Regs(0xE5030380, 0x2B4209F5, 0x04409A6A, 0xD550F666, 0x9B27A401, 0x714260AD, 0x43ADA245, 0x24E00850);
    assert Round(Regs(0xE5030380, 0x2B4209F5, 0x04409A6A, 0xD550F666, 0x9B27A401, 0x714260AD, 0x43ADA245, 0x24E00850),
                 0xAB1C5ED5, 0x00000000) ==
           Regs(0x85A07B5F, 0xE5030380, 0x2B4209F5, 0x04409A6A, 0x0C657A79, 0x9B27A401, 0x714260AD, 0x43ADA245);
  }

  lemma {:induction false} AbcChain1()
    ensures Chain(AbcStart(1), Constants(1), AbcWords(1), AbcStates(1))
  {
    assert Round(Regs(0x85A07B5F, 0xE5030380, 0x2B4209F5, 0x04409A6A, 0x0C657A79, 0x9B27A401, 0x714260AD, 0x43ADA245),
                 0xD807AA98, 0x00000000) ==
           Regs(0x8E04ECB9, 0x85A07B5F, 0xE5030380, 0x2B4209F5, 0x32CA2D8C, 0x0C657A79, 0x9B27A401, 0x714260AD);
    assert Round(Regs(0x8E04ECB9, 0x85A07B5F, 0xE5030380, 0x2B4209F5, 0x32CA2D8C, 0x0C657A79, 0x9B27A401, 0x714260AD),
                 0x12835B01, 0x00000000) ==
           Regs(0x8C87346B, 0x8E04ECB9, 0x85A07B5F, 0xE5030380, 0x1CC92596, 0x32CA2D8C, 0x0C657A79, 0x9B27A401);
    assert Round(Regs(0x8C87346B, 0x8E04ECB9, 0x85A07B5F, 0xE5030380, 0x1CC92596, 0x32CA2D8C, 0x0C657A79, 0x9B27A401),
                 0x243185BE, 0x00000000) ==
           Regs(0x4798A3F4, 0x8C87346B, 0x8E04ECB9, 0x85A07B5F, 0x436B23E8, 0x1CC92596, 0x32CA2D8C, 0x0C657A79);
    assert Round(Regs(0x4798A3F4, 0x8C87346B, 0x8E04ECB9, 0x85A07B5F, 0x436B23E8, 0x1CC92596, 0x32CA2D8C, 0x0C657A79),
                 0x550C7DC3, 0x00000000) ==
           Regs(0xF71FC5A9, 0x4798A3F4, 0x8C87346B, 0x8E04ECB9, 0x816FD6E9, 0x436B23E8, 0x1CC92596, 0x32CA2D8C);
    assert Round(Regs(0xF71FC5A9, 0x4798A3F4, 0x8C87346B, 0x8E04ECB9, 0x816FD6E9, 0x436B23E8, 0x1CC92596, 0x32CA2D8C),
                 0x72BE5D74, 0x00000000) ==
           Regs(0x87912990, 0xF71FC5A9, 0x4798A3F4, 0x8C87346B, 0x1E578218, 0x816FD6E9, 0x436B23E8, 0x1CC92596);
    assert Round(Regs(0x87912990, 0xF71FC5A9, 0x4798A3F4, 0x8C87346B, 0x1E578218, 0x816FD6E9, 0x436B23E8, 0x1CC92596),
                 0x80DEB1FE, 0x00000000) ==
           Regs(0xD932EB16, 0x87912990, 0xF71FC5A9, 0x4798A3F4, 0x745A48DE, 0x1E578218, 0x816FD6E9, 0x436B23E8);
    assert Round(Regs(0xD932EB16, 0x87912990, 0xF71FC5A9, 0x4798A3F4, 0x745A48DE, 0x1E578218, 0x816FD6E9, 0x436B23E8),
                 0x9BDC06A7, 0x00000000) ==
           Regs(0xC0645FDE, 0xD932EB16, 0x87912990, 0xF71FC5A9, 0x0B92F20C, 0x745A48DE, 0x1E578218, 0x816FD6E9);
    assert Round(Regs(0xC0645FDE, 0xD932EB16, 0x87912990, 0xF71FC5A9, 0x0B92F20C, 0x745A48DE, 0x1E578218, 0x816FD6E9),
                 0xC19BF174, 0x00000018) ==
           Regs(0xB0FA238E, 0xC0645FDE, 0xD932EB16, 0x87912990, 0x07590DCD, 0x0B92F20C, 0x745A48DE, 0x1E578218);
  }

  lemma {:induction false} AbcChain2()
    ensures Chain(AbcStart(2), Constants(2), AbcWords(2), AbcStates(2))
  {
    assert Round(Regs(0xB0FA238E, 0xC0645FDE, 0xD932EB16, 0x87912990, 0x07590DCD, 0x0B92F20C, 0x745A48DE, 0x1E578218),
                 0xE49B69C1, 0x61626380) ==
           Regs(0x21DA9A9B, 0xB0FA238E, 0xC0645FDE, 0xD932EB16, 0x8034229C, 0x07590DCD, 0x0B92F20C, 0x745A48DE);
    assert Round(Regs(0x21DA9A9B, 0xB0FA238E, 0xC0645FDE, 0xD932EB16, 0x8034229C, 0x07590DCD, 0x0B92F20C, 0x745A48DE),
                 0xEFBE4786, 0x000F0000) ==
           Regs(0xC2FBD9D1, 0x21DA9A9B, 0xB0FA238E, 0xC0645FDE, 0x846EE454, 0x8034229C, 0x07590DCD, 0x0B92F20C);
    assert Round(Regs(0xC2FBD9D1, 0x21DA9A9B, 0xB0FA238E, 0xC0645FDE, 0x846EE454, 0x8034229C, 0x07590DCD, 0x0B92F20C),
                 0x0FC19DC6, 0x7DA86405) ==
           Regs(0xFE777BBF, 0xC2FBD9D1, 0x21DA9A9B, 0xB0FA238E, 0xCC899961, 0x846EE454, 0x8034229C, 0x07590DCD);
    assert Round(Regs(0xFE777BBF, 0xC2FBD9D1, 0x21DA9A9B, 0xB0FA238E, 0xCC899961, 0x846EE454, 0x8034229C, 0x07590DCD),
                 0x240CA1CC, 0x600003C6) ==
           Regs(0xE1F20C33, 0xFE777BBF, 0xC2FBD9D1, 0x21DA9A9B, 0xB0638179, 0xCC899961, 0x846EE454, 0x8034229C);
    assert Round(Regs(0xE1F20C33, 0xFE777BBF, 0xC2FBD9D1, 0x21DA9A9B, 0xB0638179, 0xCC899961, 0x846EE454, 0x8034229C),
                 0x2DE92C6F, 0x3E9D7B78) ==
           Regs(0x9DC68B63, 0xE1F20C33, 0xFE777BBF, 0xC2FBD9D1, 0x8ADA8930, 0xB0638179, 0xCC899961, 0x846EE454);
    assert Round(Regs(0x9DC68B63, 0xE1F20C33, 0xFE777BBF, 0xC2FBD9D1, 0x8ADA8930, 0xB0638179, 0xCC899961, 0x846EE454),
                 0x4A7484AA, 0x0183FC00) ==
           Regs(0xC2606D6D, 0x9DC68B63, 0xE1F20C33, 0xFE777BBF, 0xE1257970, 0x8ADA8930, 0xB0638179, 0xCC899961);
    assert Round(Regs(0xC2606D6D, 0x9DC68B63, 0xE1F20C33, 0xFE777BBF, 0xE1257970, 0x8ADA8930, 0xB0638179, 0xCC899961),
                 0x5CB0A9DC, 0x12DCBFDB) ==
           Regs(0xA7A3623F, 0xC2606D6D, 0x9DC68B63, 0xE1F20C33, 0x49F5114A, 0xE1257970, 0x8ADA8930, 0xB0638179);
    assert Round(Regs(0xA7A3623F, 0xC2606D6D, 0x9DC68B63, 0xE1F20C33, 0x49F5114A, 0xE1257970, 0x8ADA8930, 0xB0638179),
                 0x76F988DA, 0xE2E2C38E) ==
           Regs(0xC5D53D8D, 0xA7A3623F, 0xC2606D6D, 0x9DC68B63, 0xAA47C347, 0x49F5114A, 0xE1257970, 0x8ADA8930);
  }

  lemma {:induction false} AbcChain3()
    ensures Chain(AbcStart(3), Constants(3), AbcWords(3), AbcStates(3))
  {
    assert Round(Regs(0xC5D53D8D, 0xA7A3623F, 0xC2606D6D, 0x9DC68B63, 0xAA47C347, 0x49F5114A, 0xE1257970, 0x8ADA8930),
                 0x983E5152, 0xC8215C1A) ==
           Regs(0x1C2C2838, 0xC5D53D8D, 0xA7A3623F, 0xC2606D6D, 0x2823EF91, 0xAA47C347, 0x49F5114A, 0xE1257970);
    assert Round(Regs(0x1C2C2838, 0xC5D53D8D, 0xA7A3623F, 0xC2606D6D, 0x2823EF91, 0xAA47C347, 0x49F5114A, 0xE1257970),
                 0xA831C66D, 0xB73679A2) ==
           Regs(0xCDE8037D, 0x1C2C2838, 0xC5D53D8D, 0xA7A3623F, 0x14383D8E, 0x2823EF91, 0xAA47C347, 0x49F5114A);
    assert Round(Regs(0xCDE8037D, 0x1C2C2838, 0xC5D53D8D, 0xA7A3623F, 0x14383D8E, 0x2823EF91, 0xAA47C347, 0x49F5114A),
                 0xB00327C8, 0xE5BC3909) ==
           Regs(0xB62EC4BC, 0xCDE8037D, 0x1C2C2838, 0xC5D53D8D, 0xC74C6516, 0x14383D8E, 0x2823EF91, 0xAA47C347);
    assert Round(Regs(0xB62EC4BC, 0xCDE8037D, 0x1C2C2838, 0xC5D53D8D, 0xC74C6516, 0x14383D8E, 0x2823EF91, 0xAA47C347),
                 0xBF597FC7, 0x32663C5B) ==
           Regs(0x77D37528, 0xB62EC4BC, 0xCDE8037D, 0x1C2C2838, 0xEDFFBFF8, 0xC74C6516, 0x14383D8E, 0x2823EF91);
    assert Round(Regs(0x77D37528, 0xB62EC4BC, 0xCDE8037D, 0x1C2C2838, 0xEDFFBFF8, 0xC74C6516, 0x14383D8E, 0x2823EF91),
                 0xC6E00BF3, 0x9D209D67) ==
           Regs(0x363482C9, 0x77D37528, 0xB62EC4BC, 0xCDE8037D, 0x6112A3B7, 0xEDFFBFF8, 0xC74C6516, 0x14383D8E);
    assert Round(Regs(0x363482C9, 0x77D37528, 0xB62EC4BC, 0xCDE8037D, 0x6112A3B7, 0xEDFFBFF8, 0xC74C6516, 0x14383D8E),
                 0xD5A79147, 0xEC8726CB) ==
           Regs(0xA0060B30, 0x363482C9, 0x77D37528, 0xB62EC4BC, 0xADE79437, 0x6112A3B7, 0xEDFFBFF8, 0xC74C6516);
    assert Round(Regs(0xA0060B30, 0x363482C9, 0x77D37528, 0xB62EC4BC, 0xADE79437, 0x6112A3B7, 0xEDFFBFF8, 0xC74C6516),
                 0x06CA6351, 0x702138A4) ==
           Regs(0xEA992A22, 0xA0060B30, 0x363482C9, 0x77D37528, 0x0109AB3A, 0xADE79437, 0x6112A3B7, 0xEDFFBFF8);
    assert Round(Regs(0xEA992A22, 0xA0060B30, 0x363482C9, 0x77D37528, 0x0109AB3A, 0xADE79437, 0x6112A3B7, 0xEDFFBFF8),
                 0x14292967, 0xD3B7973B) ==
           Regs(0x73B33BF5, 0xEA992A22, 0xA0060B30, 0x363482C9, 0xBA591112, 0x0109AB3A, 0xADE79437, 0x6112A3B7);
  }

  lemma {:induction false} AbcChain4()
    ensures Chain(AbcStart(4), Constants(4), AbcWords(4), AbcStates(4))
  {
    assert Round(Regs(0x73B33BF5, 0xEA992A22, 0xA0060B30, 0x363482C9, 0xBA591112, 0x0109AB3A, 0xADE79437, 0x6112A3B7),
                 0x27B70A85, 0x93F5997F) ==
           Regs(0x98E12507, 0x73B33BF5, 0xEA992A22, 0xA0060B30, 0x9CD9F5F6, 0xBA591112, 0x0109AB3A, 0xADE79437);
    assert Round(Regs(0x98E12507, 0x73B33BF5, 0xEA992A22, 0xA0060B30, 0x9CD9F5F6, 0xBA591112, 0x0109AB3A, 0xADE79437),
                 0x2E1B2138, 0x3B68BA73) ==
           Regs(0xFE604DF5, 0x98E12507, 0x73B33BF5, 0xEA992A22, 0x59249DD3, 0x9CD9F5F6, 0xBA591112, 0x0109AB3A);
    assert Round(Regs(0xFE604DF5, 0x98E12507, 0x73B33BF5, 0xEA992A22, 0x59249DD3, 0x9CD9F5F6, 0xBA591112, 0x0109AB3A),
                 0x4D2C6DFC, 0xAFF4FFC1) ==
           Regs(0xA9A7738C, 0xFE604DF5, 0x98E12507, 0x73B33BF5, 0x085F3833, 0x59249DD3, 0x9CD9F5F6, 0xBA591112);
    assert Round(Regs(0xA9A7738C, 0xFE604DF5, 0x98E12507, 0x73B33BF5, 0x085F3833, 0x59249DD3, 0x9CD9F5F6, 0xBA591112),
                 0x53380D13, 0xF10A5C62) ==
           Regs(0x65A0CFE4, 0xA9A7738C, 0xFE604DF5, 0x98E12507, 0xF4B002D6, 0x085F3833, 0x59249DD3, 0x9CD9F5F6);
    assert Round(Regs(0x65A0CFE4, 0xA9A7738C, 0xFE604DF5, 0x98E12507, 0xF4B002D6, 0x085F3833, 0x59249DD3, 0x9CD9F5F6),
                 0x650A7354, 0x0A8B3996) ==
           Regs(0x41A65CB1, 0x65A0CFE4, 0xA9A7738C, 0xFE604DF5, 0x0772A26B, 0xF4B002D6, 0x085F3833, 0x59249DD3);
    assert Round(Regs(0x41A65CB1, 0x65A0CFE4, 0xA9A7738C, 0xFE604DF5, 0x0772A26B, 0xF4B002D6, 0x085F3833, 0x59249DD3),
                 0x766A0ABB, 0x72AF830A) ==
           Regs(0x34DF1604, 0x41A65CB1, 0x65A0CFE4, 0xA9A7738C, 0xA507A53D, 0x0772A26B, 0xF4B002D6, 0x085F3833);
    assert Round(Regs(0x34DF1604, 0x41A65CB1, 0x65A0CFE4, 0xA9A7738C, 0xA507A53D, 0x0772A26B, 0xF4B002D6, 0x085F3833),
                 0x81C2C92E, 0x9409E33E) ==
           Regs(0x6DC57A8A, 0x34DF1604, 0x41A65CB1, 0x65A0CFE4, 0xF0781BC8, 0xA507A53D, 0x0772A26B, 0xF4B002D6);
    assert Round(Regs(0x6DC57A8A, 0x34DF1604, 0x41A65CB1, 0x65A0CFE4, 0xF0781BC8, 0xA507A53D, 0x0772A26B, 0xF4B002D6),
                 0x92722C85, 0x24641522) ==
           Regs(0x79EA687A, 0x6DC57A8A, 0x34DF1604, 0x41A65CB1, 0x1EFBC0A0, 0xF0781BC8, 0xA507A53D, 0x0772A26B);
  }

  lemma {:induction false} AbcChain5()
    ensures Chain(AbcStart(5), Constants(5), AbcWords(5), AbcStates(5))
  {
    assert Round(Regs(0x79EA687A, 0x6DC57A8A, 0x34DF1604, 0x41A65CB1, 0x1EFBC0A0, 0xF0781BC8, 0xA507A53D, 0x0772A26B),
                 0xA2BFE8A1, 0x9F47BF94) ==
           Regs(0xD6670766, 0x79EA687A, 0x6DC57A8A, 0x34DF1604, 0x26352D63, 0x1EFBC0A0, 0xF0781BC8, 0xA507A53D);
    assert Round(Regs(0xD6670766, 0x79EA687A, 0x6DC57A8A, 0x34DF1604, 0x26352D63, 0x1EFBC0A0, 0xF0781BC8, 0xA507A53D),
                 0xA81A664B, 0xF0A64F5A) ==
           Regs(0xDF46652F, 0xD6670766, 0x79EA687A, 0x6DC57A8A, 0x838B2711, 0x26352D63, 0x1EFBC0A0, 0xF0781BC8);
    assert Round(Regs(0xDF46652F, 0xD6670766, 0x79EA687A, 0x6DC57A8A, 0x838B2711, 0x26352D63, 0x1EFBC0A0, 0xF0781BC8),
                 0xC24B8B70, 0x3E246A79) ==
           Regs(0x17AA0DFE, 0xDF46652F, 0xD6670766, 0x79EA687A, 0xDECD4715, 0x838B2711, 0x26352D63, 0x1EFBC0A0);
    assert Round(Regs(0x17AA0DFE, 0xDF46652F, 0xD6670766, 0x79EA687A, 0xDECD4715, 0x838B2711, 0x26352D63, 0x1EFBC0A0),
                 0xC76C51A3, 0x27333BA3) ==
           Regs(0x9D4BAF93, 0x17AA0DFE, 0xDF46652F, 0xD6670766, 0xFDA24C2E, 0xDECD4715, 0x838B2711, 0x26352D63);
    assert Round(Regs(0x9D4BAF93, 0x17AA0DFE, 0xDF46652F, 0xD6670766, 0xFDA24C2E, 0xDECD4715, 0x838B2711, 0x26352D63),
                 0xD192E819, 0x0C4763F2) ==
           Regs(0x26628815, 0x9D4BAF93, 0x17AA0DFE, 0xDF46652F, 0xA80F11F0, 0xFDA24C2E, 0xDECD4715, 0x838B2711);
    assert Round(Regs(0x26628815, 0x9D4BAF93, 0x17AA0DFE, 0xDF46652F, 0xA80F11F0, 0xFDA24C2E, 0xDECD4715, 0x838B2711),
                 0xD6990624, 0x840ABF27) ==
           Regs(0x72AB4B91, 0x26628815, 0x9D4BAF93, 0x17AA0DFE, 0xB7755DA1, 0xA80F11F0, 0xFDA24C2E, 0xDECD4715);
    assert Round(Regs(0x72AB4B91, 0x26628815, 0x9D4BAF93, 0x17AA0DFE, 0xB7755DA1, 0xA80F11F0, 0xFDA24C2E, 0xDECD4715),
                 0xF40E3585, 0x7A290D5D) ==
           Regs(0xA14C14B0, 0x72AB4B91, 0x26628815, 0x9D4BAF93, 0xD57B94A9, 0xB7755DA1, 0xA80F11F0, 0xFDA24C2E);
    assert Round(Regs(0xA14C14B0, 0x72AB4B91, 0x26628815, 0x9D4BAF93, 0xD57B94A9, 0xB7755DA1, 0xA80F11F0, 0xFDA24C2E),
                 0x106AA070, 0x065C43DA) ==
           Regs(0x4172328D, 0xA14C14B0, 0x72AB4B91, 0x26628815, 0xFECF0BC6, 0xD57B94A9, 0xB7755DA1, 0xA80F11F0);
  }

  lemma {:induction false} AbcChain6()
    ensures Chain(AbcStart(6), Constants(6), AbcWords(6), AbcStates(6))
  {
    assert Round(Regs(0x4172328D, 0xA14C14B0, 0x72AB4B91, 0x26628815, 0xFECF0BC6, 0xD57B94A9, 0xB7755DA1, 0xA80F11F0),
                 0x19A4C116, 0xFB3E89CB) ==
           Regs(0x05757CEB, 0x4172328D, 0xA14C14B0, 0x72AB4B91, 0xBD714038, 0xFECF0BC6, 0xD57B94A9, 0xB7755DA1);
    assert Round(Regs(0x05757CEB, 0x4172328D, 0xA14C14B0, 0x72AB4B91, 0xBD714038, 0xFECF0BC6, 0xD57B94A9, 0xB7755DA1),
                 0x1E376C08, 0xCC7617DB) ==
           Regs(0xF11BFAA8, 0x05757CEB, 0x4172328D, 0xA14C14B0, 0x6E5C390C, 0xBD714038, 0xFECF0BC6, 0xD57B94A9);
    assert Round(Regs(0xF11BFAA8, 0x05757CEB, 0x4172328D, 0xA14C14B0, 0x6E5C390C, 0xBD714038, 0xFECF0BC6, 0xD57B94A9),
                 0x2748774C, 0xB9E66C34) ==
           Regs(0x7A0508A1, 0xF11BFAA8, 0x05757CEB, 0x4172328D, 0x52F1CCF7, 0x6E5C390C, 0xBD714038, 0xFECF0BC6);
    assert Round(Regs(0x7A0508A1, 0xF11BFAA8, 0x05757CEB, 0x4172328D, 0x52F1CCF7, 0x6E5C390C, 0xBD714038, 0xFECF0BC6),
                 0x34B0BCB5, 0xA9993667) ==
           Regs(0x886E7A22, 0x7A0508A1, 0xF11BFAA8, 0x05757CEB, 0x49231C1E, 0x52F1CCF7, 0x6E5C390C, 0xBD714038);
    assert Round(Regs(0x886E7A22, 0x7A0508A1, 0xF11BFAA8, 0x05757CEB, 0x49231C1E, 0x52F1CCF7, 0x6E5C390C, 0xBD714038),
                 0x391C0CB3, 0x84BADEDD) ==
           Regs(0x101FD28F, 0x886E7A22, 0x7A0508A1, 0xF11BFAA8, 0x529E7D00, 0x49231C1E, 0x52F1CCF7, 0x6E5C390C);
    assert Round(Regs(0x101FD28F, 0x886E7A22, 0x7A0508A1, 0xF11BFAA8, 0x529E7D00, 0x49231C1E, 0x52F1CCF7, 0x6E5C390C),
                 0x4ED8AA4A, 0xC21462BC) ==
           Regs(0xF5702FDB, 0x101FD28F, 0x886E7A22, 0x7A0508A1, 0x9F4787C3, 0x529E7D00, 0x49231C1E, 0x52F1CCF7);
    assert Round(Regs(0xF5702FDB, 0x101FD28F, 0x886E7A22, 0x7A0508A1, 0x9F4787C3, 0x529E7D00, 0x49231C1E, 0x52F1CCF7),
                 0x5B9CCA4F, 0x1487472C) ==
           Regs(0x3EC45CDB, 0xF5702FDB, 0x101FD28F, 0x886E7A22, 0xE50E1B4F, 0x9F4787C3, 0x529E7D00, 0x49231C1E);
    assert Round(Regs(0x3EC45CDB, 0xF5702FDB, 0x101FD28F, 0x886E7A22, 0xE50E1B4F, 0x9F4787C3, 0x529E7D00, 0x49231C1E),
                 0x682E6FF3, 0xB20F7A99) ==
           Regs(0x38CC9913, 0x3EC45CDB, 0xF5702FDB, 0x101FD28F, 0x54CB266B, 0xE50E1B4F, 0x9F4787C3, 0x529E7D00);
  }

  lemma {:induction false} AbcChain7()
    ensures Chain(AbcStart(7), Constants(7), AbcWords(7), AbcStates(7))
  {
    assert Round(Regs(0x38CC9913, 0x3EC45CDB, 0xF5702FDB, 0x101FD28F, 0x54CB266B, 0xE50E1B4F, 0x9F4787C3, 0x529E7D00),
                 0x748F82EE, 0xEF57B9CD) ==
           Regs(0xFCD1887B, 0x38CC9913, 0x3EC45CDB, 0xF5702FDB, 0x9B5E906C, 0x54CB266B, 0xE50E1B4F, 0x9F4787C3);
    assert Round(Regs(0xFCD1887B, 0x38CC9913, 0x3EC45CDB, 0xF5702FDB, 0x9B5E906C, 0x54CB266B, 0xE50E1B4F, 0x9F4787C3),
                 0x78A5636F, 0xEBE6B238) ==
           Regs(0xC062D46F, 0xFCD1887B, 0x38CC9913, 0x3EC45CDB, 0x7E44008E, 0x9B5E906C, 0x54CB266B, 0xE50E1B4F);
    assert Round(Regs(0xC062D46F, 0xFCD1887B, 0x38CC9913, 0x3EC45CDB, 0x7E44008E, 0x9B5E906C, 0x54CB266B, 0xE50E1B4F),
                 0x84C87814, 0x9FE3095E) ==
           Regs(0xFFB70472, 0xC062D46F, 0xFCD1887B, 0x38CC9913, 0x6D83BFC6, 0x7E44008E, 0x9B5E906C, 0x54CB266B);
    assert Round(Regs(0xFFB70472, 0xC062D46F, 0xFCD1887B, 0x38CC9913, 0x6D83BFC6, 0x7E44008E, 0x9B5E906C, 0x54CB266B),
                 0x8CC70208, 0x78BC8D4B) ==
           Regs(0xB6AE8FFF, 0xFFB70472, 0xC062D46F, 0xFCD1887B, 0xB21BAD3D, 0x6D83BFC6, 0x7E44008E, 0x9B5E906C);
    assert Round(Regs(0xB6AE8FFF, 0xFFB70472, 0xC062D46F, 0xFCD1887B, 0xB21BAD3D, 0x6D83BFC6, 0x7E44008E, 0x9B5E906C),
                 0x90BEFFFA, 0xA43FCF15) ==
           Regs(0xB85E2CE9, 0xB6AE8FFF, 0xFFB70472, 0xC062D46F, 0x961F4894, 0xB21BAD3D, 0x6D83BFC6, 0x7E44008E);
    assert Round(Regs(0xB85E2CE9, 0xB6AE8FFF, 0xFFB70472, 0xC062D46F, 0x961F4894, 0xB21BAD3D, 0x6D83BFC6, 0x7E44008E),
                 0xA4506CEB, 0x668B2FF8) ==
           Regs(0x04D24D6C, 0xB85E2CE9, 0xB6AE8FFF, 0xFFB70472, 0x948D25B6, 0x961F4894, 0xB21BAD3D, 0x6D83BFC6);
    assert Round(Regs(0x04D24D6C, 0xB85E2CE9, 0xB6AE8FFF, 0xFFB70472, 0x948D25B6, 0x961F4894, 0xB21BAD3D, 0x6D83BFC6),
                 0xBEF9A3F7, 0xEEABA2CC) ==
           Regs(0xD39A2165, 0x04D24D6C, 0xB85E2CE9, 0xB6AE8FFF, 0xFB121210, 0x948D25B6, 0x961F4894, 0xB21BAD3D);
    assert Round(Regs(0xD39A2165, 0x04D24D6C, 0xB85E2CE9, 0xB6AE8FFF, 0xFB121210, 0x948D25B6, 0x961F4894, 0xB21BAD3D),
                 0xC67178F2, 0x12B1EDEB) ==
           Regs(0x506E3058, 0xD39A2165, 0x04D24D6C, 0xB85E2CE9, 0x5EF50F24, 0xFB121210, 0x948D25B6, 0x961F4894);
  }

  /** f gives the working variables after each number of rounds. */
  ghost predicate Tracks(f: nat -> Regs, block: seq<Byte>)
    requires |block| == 64
  {
    forall t: nat {:trigger Rounds(INITIAL, block, t)} | t <= 64 :: f(t) == Rounds(INITIAL, block, t)
  }

  lemma {:induction false} AbcRounds(f: nat -> Regs, block: seq<Byte>, j: nat, t: nat)
    requires IsAbc(block) && j <= 8 && t == 8 * j && Tracks(f, block)
    ensures f(t) == AbcStart(j)
  {
    if j > 0 {
      AbcRounds(f, block, j - 1, t - 8);
      AbcGroup(f, block, t - 8, j - 1);
    } else {
      assert Rounds(INITIAL, block, t) == INITIAL;
    }
  }

  lemma {:induction false} AbcGroup(f: nat -> Regs, block: seq<Byte>, t: nat, j: nat)
    requires IsAbc(block) && j < 8 && t == 8 * j && Tracks(f, block) && f(t) == AbcStart(j)
    ensures f(t + 8) == AbcStart(j + 1)
  {
    AbcNext(block, t, j, f(t), AbcStates(j));
    AbcLast(j);
  }

  lemma {:induction false} AbcLast(j: nat)
    requires j < 8
    ensures AbcStates(j)[7] == AbcStart(j + 1)
  {}

  lemma {:induction false} AbcNext(block: seq<Byte>, t: nat, j: nat, s: Regs, ss: seq<Regs>)
    requires IsAbc(block) && j < 8 && t == 8 * j && s == AbcStart(j) && ss == AbcStates(j)
    requires Rounds(INITIAL, block, t) == s
    ensures Rounds(INITIAL, block, t + 8) == ss[7]
  {
    AbcSchedule(block, j, t);
    GroupConstants(j);
    AbcChain(j);
    RunChain(INITIAL, block, t, s, Constants(j), AbcWords(j), ss);
  }

  // ---- the digest of "abc" ----

  /** The published digest. */
  const ABC_DIGEST: seq<Byte> :=
    [0xBA, 0x78, 0x16, 0xBF, 0x8F, 0x01, 0xCF, 0xEA, 0x41, 0x41, 0x40, 0xDE, 0x5D, 0xAE, 0x22, 0x23,
     0xB0, 0x03, 0x61, 0xA3, 0x96, 0x17, 0x7A, 0x9C, 0xB4, 0x10, 0xFF, 0x61, 0xF2, 0x00, 0x15, 0xAD]

  lemma {:induction false} AbcPadded(m: seq<Byte>)
    requires m == [0x61, 0x62, 0x63]
    ensures IsAbc(Pad(m))
  {
    var p := Pad(m);
    assert ZeroCount(3) == 52;
    AbcLength();
    assert |p| == 64;
    assert p[56..] == [0, 0, 0, 0, 0, 0, 0, 24];
    forall i | 56 <= i < 64 ensures p[i] == p[56..][i - 56] {}
  }

  lemma {:induction false} AbcLength()
    ensures LengthBytes(3) == [0, 0, 0, 0, 0, 0, 0, 24]
  {
    assert ToBytes(24, 8) == ToBytes(0, 7) + [24];
    assert ToBytes(0, 7) == ToBytes(0, 6) + [0];
    assert ToBytes(0, 4) == [0, 0, 0, 0];
  }

  lemma {:induction false} AbcCompressed(block: seq<Byte>)
    requires IsAbc(block)
    ensures Compress(INITIAL, block) == Plus(INITIAL, AbcStart(8))
  {
    var f := (t: nat) => if t <= 64 then Rounds(INITIAL, block, t) else INITIAL;
    AbcRounds(f, block, 8, |block|);
  }

  lemma {:induction false} AbcSum()
    ensures Plus(INITIAL, AbcStart(8)) ==
            Regs(0xBA7816BF, 0x8F01CFEA, 0x414140DE, 0x5DAE2223, 0xB00361A3, 0x96177A9C, 0xB410FF61, 0xF20015AD)
  {}

  lemma {:induction false} AbcBytes()
    ensures var r :=
              Regs(0xBA7816BF, 0x8F01CFEA, 0x414140DE, 0x5DAE2223, 0xB00361A3, 0x96177A9C, 0xB410FF61, 0xF20015AD);
            RegsBytes(r) == ABC_DIGEST
  {
    AbcWord0();
    AbcWord1();
    AbcWord2();
    AbcWord3();
    AbcWord4();
    AbcWord5();
    AbcWord6();
    AbcWord7();
  }

  lemma {:induction false} AbcWord0()
    ensures WordBytes(0xBA7816BF) == [0xBA, 0x78, 0x16, 0xBF]
  {}

  lemma {:induction false} AbcWord1()
    ensures WordBytes(0x8F01CFEA) == [0x8F, 0x01, 0xCF, 0xEA]
  {}

  lemma {:induction false} AbcWord2()
    ensures WordBytes(0x414140DE) == [0x41, 0x41, 0x40, 0xDE]
  {}

  lemma {:induction false} AbcWord3()
    ensures WordBytes(0x5DAE2223) == [0x5D, 0xAE, 0x22, 0x23]
  {}

  lemma {:induction false} AbcWord4()
    ensures WordBytes(0xB00361A3) == [0xB0, 0x03, 0x61, 0xA3]
  {}

  lemma {:induction false} AbcWord5()
    ensures WordBytes(0x96177A9C) == [0x96, 0x17, 0x7A, 0x9C]
  {}

  lemma {:induction false} AbcWord6()
    ensures WordBytes(0xB410FF61) == [0xB4, 0x10, 0xFF, 0x61]
  {}

  lemma {:induction false} AbcWord7()
    ensures WordBytes(0xF20015AD) == [0xF2, 0x00, 0x15, 0xAD]
  {}

  /** SHA-256 of "abc". */
  lemma {:induction false} DigestOfAbc()
    ensures Digest([0x61, 0x62, 0x63]) == ABC_DIGEST
  {
    var m: seq<Byte> := [0x61, 0x62, 0x63];
    var p := Pad(m);
    AbcPadded(m);
    OneBlock(p);
    AbcCompressed(p);
    AbcSum();
    AbcBytes();
  }

  lemma {:induction false} OneBlock(p: seq<Byte>)
    requires |p| == 64
    ensures Blocks(p, 1) == Compress(INITIAL, p)
  {
    BlockStep(p, 0);
    assert p[0..64] == p;
  }

  // ---- the constants: roots of primes ----

  predicate IsPrime(n: nat) {
    n >= 2 && forall d | 2 <= d < n :: n % d != 0
  }

  /** No divisor below 18 decides it for numbers below 18 * 18. */
  predicate NoSmallDivisor(p: nat) {
    && (p == 2 || p % 2 != 0) && (p == 3 || p % 3 != 0) && (p == 5 || p % 5 != 0) && (p == 7 || p % 7 != 0)
    && (p == 11 || p % 11 != 0) && (p == 13 || p % 13 != 0) && (p == 17 || p % 17 != 0)
  }

  lemma {:induction false} PrimeIff(n: nat)
    requires 2 <= n < 324
    ensures IsPrime(n) <==> NoSmallDivisor(n)
  {
    if NoSmallDivisor(n) {
      forall d | 2 <= d < n
        ensures n % d != 0
      {
        if n % d == 0 {
          var e := n / d;
          Cofactor(n, d, e);
          if d < 18 { SmallFactor(n, d); } else { SmallFactor(n, e); }
        }
      }
    }
  }

  lemma {:induction false} Cofactor(n: nat, d: nat, e: nat)
    requires 2 <= d < n < 324 && n % d == 0 && e == n / d
    ensures 2 <= e < n && n % e == 0 && (d >= 18 ==> e < 18)
  {
    assert n == d * e;
    if e <= 1 { MulMono(d, e, 1); }
    if d >= 18 && e >= 18 {
      MulMono(d, 18, e);
      MulMono(18, 18, d);
    }
    MulMono(e, 2, d);
    DivUnique(n, e, d, 0);
  }

  /** A number below 18 and its prime factors divide what it divides. */
  lemma {:induction false} SmallFactor(n: nat, d: nat)
    requires 2 <= d < 18 && d < n && n % d == 0
    ensures !NoSmallDivisor(n)
  {
    var f := if d % 2 == 0 then 2 else if d % 3 == 0 then 3 else if d % 5 == 0 then 5 else d;
    assert f in {2, 3, 5, 7, 11, 13, 17};
    Factor(n, d, f);
  }

  lemma {:induction false} Factor(n: nat, d: nat, f: nat)
    requires d > 0 && f > 0 && n % d == 0 && d % f == 0
    ensures n % f == 0
  {
    var q, c := n / d, d / f;
    assert n == d * q && d == f * c;
    assert n == f * (c * q);
    DivUnique(n, f, c * q, 0);
  }

  /** The first 64 primes, eight at a time. */
  function Primes(j: nat): (ps: seq<nat>)
    requires j < 8
    ensures |ps| == 8
  {
    match j
    case 0 => [2, 3, 5, 7, 11, 13, 17, 19]
    case 1 => [23, 29, 31, 37, 41, 43, 47, 53]
    case 2 => [59, 61, 67, 71, 73, 79, 83, 89]
    case 3 => [97, 101, 103, 107, 109, 113, 127, 131]
    case 4 => [137, 139, 149, 151, 157, 163, 167, 173]
    case 5 => [179, 181, 191, 193, 197, 199, 211, 223]
    case 6 => [227, 229, 233, 239, 241, 251, 257, 263]
    case _ => [269, 271, 277, 281, 283, 293, 307, 311]
  }

  function Prime(t: nat): nat
    requires t < 64
  {
    Primes(t / 8)[t % 8]
  }

  function NextPrime(t: nat): nat
    requires t < 64
  {
    if t < 63 then Prime(t + 1) else 0
  }

  /** p is prime and q, if not 0, is the next prime. */
  ghost predicate PrimeThen(p: nat, q: nat) {
    IsPrime(p) && (q > 0 ==> p < q && forall n | p < n < q :: !IsPrime(n))
  }

  /** f is a small odd divisor of n, or n is outside the gap. */
  predicate Divided(n: nat, q: nat, f: nat) {
    n >= q || (f in {3, 5, 7, 11, 13, 17} && n > f && n % f == 0)
  }

  /** Between odd numbers up to 14 apart, one divisor for each odd number. */
  lemma {:induction false} PrimeGap(p: nat, q: nat, a: nat, b: nat, c: nat, d: nat, e: nat, f: nat)
    requires 2 < p < q < 324 && q <= p + 14 && p % 2 == 1 && NoSmallDivisor(p)
    requires Divided(p + 2, q, a) && Divided(p + 4, q, b) && Divided(p + 6, q, c)
    requires Divided(p + 8, q, d) && Divided(p + 10, q, e) && Divided(p + 12, q, f)
    ensures PrimeThen(p, q)
  {
    PrimeIff(p);
    forall n | p < n < q
      ensures !IsPrime(n)
    {
      GapNumber(p, q, n);
      if n % 2 == 0 { NotPrime(n, 2); }
      if n == p + 2 { DividedNotPrime(n, q, a); }
      if n == p + 4 { DividedNotPrime(n, q, b); }
      if n == p + 6 { DividedNotPrime(n, q, c); }
      if n == p + 8 { DividedNotPrime(n, q, d); }
      if n == p + 10 { DividedNotPrime(n, q, e); }
      if n == p + 12 { DividedNotPrime(n, q, f); }
    }
  }

  lemma {:induction false} GapNumber(p: nat, q: nat, n: nat)
    requires p % 2 == 1 && p < n < q <= p + 14
    ensures n % 2 == 0 || n in {p + 2, p + 4, p + 6, p + 8, p + 10, p + 12}
  {}

  lemma {:induction false} DividedNotPrime(n: nat, q: nat, f: nat)
    requires Divided(n, q, f) && n < q
    ensures !IsPrime(n)
  {
    NotPrime(n, f);
  }

  lemma {:induction false} NotPrime(n: nat, f: nat)
    requires 2 <= f < n && n % f == 0
    ensures !IsPrime(n)
  {}

  /** The table starts with the first prime and leaves none out. */
  lemma {:induction false} PrimesInOrder(t: nat)
    requires t < 64
    ensures Prime(0) == 2 && PrimeThen(Prime(t), NextPrime(t))
  {
    match t / 4 {
      case 0 => PrimesInOrder0(t);
      case 1 => PrimesInOrder1(t);
      case 2 => PrimesInOrder2(t);
      case 3 => PrimesInOrder3(t);
      case 4 => PrimesInOrder4(t);
      case 5 => PrimesInOrder5(t);
      case 6 => PrimesInOrder6(t);
      case 7 => PrimesInOrder7(t);
      case 8 => PrimesInOrder8(t);
      case 9 => PrimesInOrder9(t);
      case 10 => PrimesInOrder10(t);
      case 11 => PrimesInOrder11(t);
      case 12 => PrimesInOrder12(t);
      case 13 => PrimesInOrder13(t);
      case 14 => PrimesInOrder14(t);
      case _ => PrimesInOrder15(t);
    }
  }

  lemma {:induction false} PrimesInOrder0(t: nat)
    requires 0 <= t < 4
    ensures PrimeThen(Prime(t), NextPrime(t))
  {
    PrimeIff(2);
    PrimeGap(3, 5, 0, 0, 0, 0, 0, 0);
    PrimeGap(5, 7, 0, 0, 0, 0, 0, 0);
    PrimeGap(7, 11, 3, 0, 0, 0, 0, 0);
  }

  lemma {:induction false} PrimesInOrder1(t: nat)
    requires 4 <= t < 8
    ensures PrimeThen(Prime(t), NextPrime(t))
  {
    PrimeGap(11, 13, 0, 0, 0, 0, 0, 0);
    PrimeGap(13, 17, 3, 0, 0, 0, 0, 0);
    PrimeGap(17, 19, 0, 0, 0, 0, 0, 0);
    PrimeGap(19, 23, 3, 0, 0, 0, 0, 0);
  }

  lemma {:induction false} PrimesInOrder2(t: nat)
    requires 8 <= t < 12
    ensures PrimeThen(Prime(t), NextPrime(t))
  {
    PrimeGap(23, 29, 5, 3, 0, 0, 0, 0);
    PrimeGap(29, 31, 0, 0, 0, 0, 0, 0);
    PrimeGap(31, 37, 3, 5, 0, 0, 0, 0);
    PrimeGap(37, 41, 3, 0, 0, 0, 0, 0);
  }

  lemma {:induction false} PrimesInOrder3(t: nat)
    requires 12 <= t < 16
    ensures PrimeThen(Prime(t), NextPrime(t))
  {
    PrimeGap(41, 43, 0, 0, 0, 0, 0, 0);
    PrimeGap(43, 47, 3, 0, 0, 0, 0, 0);
    PrimeGap(47, 53, 7, 3, 0, 0, 0, 0);
    PrimeGap(53, 59, 5, 3, 0, 0, 0, 0);
  }

  lemma {:induction false} PrimesInOrder4(t: nat)
    requires 16 <= t < 20
    ensures PrimeThen(Prime(t), NextPrime(t))
  {
    PrimeGap(59, 61, 0, 0, 0, 0, 0, 0);
    PrimeGap(61, 67, 3, 5, 0, 0, 0, 0);
    PrimeGap(67, 71, 3, 0, 0, 0, 0, 0);
    PrimeGap(71, 73, 0, 0, 0, 0, 0, 0);
  }

  lemma {:induction false} PrimesInOrder5(t: nat)
    requires 20 <= t < 24
    ensures PrimeThen(Prime(t), NextPrime(t))
  {
    PrimeGap(73, 79, 3, 7, 0, 0, 0, 0);
    PrimeGap(79, 83, 3, 0, 0, 0, 0, 0);
    PrimeGap(83, 89, 5, 3, 0, 0, 0, 0);
    PrimeGap(89, 97, 7, 3, 5, 0, 0, 0);
  }

  lemma {:induction false} PrimesInOrder6(t: nat)
    requires 24 <= t < 28
    ensures PrimeThen(Prime(t), NextPrime(t))
  {
    PrimeGap(97, 101, 3, 0, 0, 0, 0, 0);
    PrimeGap(101, 103, 0, 0, 0, 0, 0, 0);
    PrimeGap(103, 107, 3, 0, 0, 0, 0, 0);
    PrimeGap(107, 109, 0, 0, 0, 0, 0, 0);
  }

  lemma {:induction false} PrimesInOrder7(t: nat)
    requires 28 <= t < 32
    ensures PrimeThen(Prime(t), NextPrime(t))
  {
    PrimeGap(109, 113, 3, 0, 0, 0, 0, 0);
    PrimeGap(113, 127, 5, 3, 7, 11, 3, 5);
    PrimeGap(127, 131, 3, 0, 0, 0, 0, 0);
    PrimeGap(131, 137, 7, 3, 0, 0, 0, 0);
  }

  lemma {:induction false} PrimesInOrder8(t: nat)
    requires 32 <= t < 36
    ensures PrimeThen(Prime(t), NextPrime(t))
  {
    PrimeGap(137, 139, 0, 0, 0, 0, 0, 0);
    PrimeGap(139, 149, 3, 11, 5, 3, 0, 0);
    PrimeGap(149, 151, 0, 0, 0, 0, 0, 0);
    PrimeGap(151, 157, 3, 5, 0, 0, 0, 0);
  }

  lemma {:induction false} PrimesInOrder9(t: nat)
    requires 36 <= t < 40
    ensures PrimeThen(Prime(t), NextPrime(t))
  {
    PrimeGap(157, 163, 3, 7, 0, 0, 0, 0);
    PrimeGap(163, 167, 3, 0, 0, 0, 0, 0);
    PrimeGap(167, 173, 13, 3, 0, 0, 0, 0);
    PrimeGap(173, 179, 5, 3, 0, 0, 0, 0);
  }

  lemma {:induction false} PrimesInOrder10(t: nat)
    requires 40 <= t < 44
    ensures PrimeThen(Prime(t), NextPrime(t))
  {
    PrimeGap(179, 181, 0, 0, 0, 0, 0, 0);
    PrimeGap(181, 191, 3, 5, 11, 3, 0, 0);
    PrimeGap(191, 193, 0, 0, 0, 0, 0, 0);
    PrimeGap(193, 197, 3, 0, 0, 0, 0, 0);
  }

  lemma {:induction false} PrimesInOrder11(t: nat)
    requires 44 <= t < 48
    ensures PrimeThen(Prime(t), NextPrime(t))
  {
    PrimeGap(197, 199, 0, 0, 0, 0, 0, 0);
    PrimeGap(199, 211, 3, 7, 5, 3, 11, 0);
    PrimeGap(211, 223, 3, 5, 7, 3, 13, 0);
    PrimeGap(223, 227, 3, 0, 0, 0, 0, 0);
  }

  lemma {:induction false} PrimesInOrder12(t: nat)
    requires 48 <= t < 52
    ensures PrimeThen(Prime(t), NextPrime(t))
  {
    PrimeGap(227, 229, 0, 0, 0, 0, 0, 0);
    PrimeGap(229, 233, 3, 0, 0, 0, 0, 0);
    PrimeGap(233, 239, 5, 3, 0, 0, 0, 0);
    PrimeGap(239, 241, 0, 0, 0, 0, 0, 0);
  }

  lemma {:induction false} PrimesInOrder13(t: nat)
    requires 52 <= t < 56
    ensures PrimeThen(Prime(t), NextPrime(t))
  {
    PrimeGap(241, 251, 3, 5, 13, 3, 0, 0);
    PrimeGap(251, 257, 11, 3, 0, 0, 0, 0);
    PrimeGap(257, 263, 7, 3, 0, 0, 0, 0);
    PrimeGap(263, 269, 5, 3, 0, 0, 0, 0);
  }

  lemma {:induction false} PrimesInOrder14(t: nat)
    requires 56 <= t < 60
    ensures PrimeThen(Prime(t), NextPrime(t))
  {
    PrimeGap(269, 271, 0, 0, 0, 0, 0, 0);
    PrimeGap(271, 277, 3, 5, 0, 0, 0, 0);
    PrimeGap(277, 281, 3, 0, 0, 0, 0, 0);
    PrimeGap(281, 283, 0, 0, 0, 0, 0, 0);
  }

  lemma {:induction false} PrimesInOrder15(t: nat)
    requires 60 <= t < 64
    ensures PrimeThen(Prime(t), NextPrime(t))
  {
    PrimeGap(283, 293, 3, 7, 17, 3, 0, 0);
    PrimeGap(293, 307, 5, 3, 13, 7, 3, 5);
    PrimeGap(307, 311, 3, 0, 0, 0, 0, 0);
    PrimeIff(311);
  }

  /** k holds the first 32 fractional bits of the cube root of p. */
  predicate CubeRootBits(p: nat, k: int) {
    exists n: nat :: n < 7 && CubeRoot(p, n, k)
  }

  predicate CubeRoot(p: nat, n: nat, k: int) {
    var x := n * 0x1_0000_0000 + k;
    && 0 <= k < 0x1_0000_0000 && x * x * x <= p * 0x1_0000_0000_0000_0000_0000_0000
    && p * 0x1_0000_0000_0000_0000_0000_0000 < (x + 1) * (x + 1) * (x + 1)
  }

  /** h holds the first 32 fractional bits of the square root of p. */
  predicate SquareRootBits(p: nat, h: int) {
    exists n: nat :: n < 5 && SquareRoot(p, n, h)
  }

  predicate SquareRoot(p: nat, n: nat, h: int) {
    var x := n * 0x1_0000_0000 + h;
    && 0 <= h < 0x1_0000_0000 && x * x <= p * 0x1_0000_0000_0000_0000
    && p * 0x1_0000_0000_0000_0000 < (x + 1) * (x + 1)
  }

  /** Section 4.2.2 of FIPS 180-4: the round constants are cube roots of the first
      64 primes. */
  lemma {:induction false} ConstantsAreRoots(t: nat)
    requires t < 64
    ensures CubeRootBits(Prime(t), K(t) as int)
  {
    match t / 4 {
      case 0 => ConstantsAreRoots0(t);
      case 1 => ConstantsAreRoots1(t);
      case 2 => ConstantsAreRoots2(t);
      case 3 => ConstantsAreRoots3(t);
      case 4 => ConstantsAreRoots4(t);
      case 5 => ConstantsAreRoots5(t);
      case 6 => ConstantsAreRoots6(t);
      case 7 => ConstantsAreRoots7(t);
      case 8 => ConstantsAreRoots8(t);
      case 9 => ConstantsAreRoots9(t);
      case 10 => ConstantsAreRoots10(t);
      case 11 => ConstantsAreRoots11(t);
      case 12 => ConstantsAreRoots12(t);
      case 13 => ConstantsAreRoots13(t);
      case 14 => ConstantsAreRoots14(t);
      case _ => ConstantsAreRoots15(t);
    }
  }

  lemma {:induction false} ConstantsAreRoots0(t: nat)
    requires 0 <= t < 4
    ensures CubeRootBits(Prime(t), K(t) as int)
  {
    assert CubeRoot(2, 1, 0x428A2F98);
    assert CubeRoot(3, 1, 0x71374491);
    assert CubeRoot(5, 1, 0xB5C0FBCF);
    assert CubeRoot(7, 1, 0xE9B5DBA5);
  }

  lemma {:induction false} ConstantsAreRoots1(t: nat)
    requires 4 <= t < 8
    ensures CubeRootBits(Prime(t), K(t) as int)
  {
    assert CubeRoot(11, 2, 0x3956C25B);
    assert CubeRoot(13, 2, 0x59F111F1);
    assert CubeRoot(17, 2, 0x923F82A4);
    assert CubeRoot(19, 2, 0xAB1C5ED5);
  }

  lemma {:induction false} ConstantsAreRoots2(t: nat)
    requires 8 <= t < 12
    ensures CubeRootBits(Prime(t), K(t) as int)
  {
    assert CubeRoot(23, 2, 0xD807AA98);
    assert CubeRoot(29, 3, 0x12835B01);
    assert CubeRoot(31, 3, 0x243185BE);
    assert CubeRoot(37, 3, 0x550C7DC3);
  }

  lemma {:induction false} ConstantsAreRoots3(t: nat)
    requires 12 <= t < 16
    ensures CubeRootBits(Prime(t), K(t) as int)
  {
    assert CubeRoot(41, 3, 0x72BE5D74);
    assert CubeRoot(43, 3, 0x80DEB1FE);
    assert CubeRoot(47, 3, 0x9BDC06A7);
    assert CubeRoot(53, 3, 0xC19BF174);
  }

  lemma {:induction false} ConstantsAreRoots4(t: nat)
    requires 16 <= t < 20
    ensures CubeRootBits(Prime(t), K(t) as int)
  {
    assert CubeRoot(59, 3, 0xE49B69C1);
    assert CubeRoot(61, 3, 0xEFBE4786);
    assert CubeRoot(67, 4, 0x0FC19DC6);
    assert CubeRoot(71, 4, 0x240CA1CC);
  }

  lemma {:induction false} ConstantsAreRoots5(t: nat)
    requires 20 <= t < 24
    ensures CubeRootBits(Prime(t), K(t) as int)
  {
    assert CubeRoot(73, 4, 0x2DE92C6F);
    assert CubeRoot(79, 4, 0x4A7484AA);
    assert CubeRoot(83, 4, 0x5CB0A9DC);
    assert CubeRoot(89, 4, 0x76F988DA);
  }

  lemma {:induction false} ConstantsAreRoots6(t: nat)
    requires 24 <= t < 28
    ensures CubeRootBits(Prime(t), K(t) as int)
  {
    assert CubeRoot(97, 4, 0x983E5152);
    assert CubeRoot(101, 4, 0xA831C66D);
    assert CubeRoot(103, 4, 0xB00327C8);
    assert CubeRoot(107, 4, 0xBF597FC7);
  }

  lemma {:induction false} ConstantsAreRoots7(t: nat)
    requires 28 <= t < 32
    ensures CubeRootBits(Prime(t), K(t) as int)
  {
    assert CubeRoot(109, 4, 0xC6E00BF3);
    assert CubeRoot(113, 4, 0xD5A79147);
    assert CubeRoot(127, 5, 0x06CA6351);
    assert CubeRoot(131, 5, 0x14292967);
  }

  lemma {:induction false} ConstantsAreRoots8(t: nat)
    requires 32 <= t < 36
    ensures CubeRootBits(Prime(t), K(t) as int)
  {
    assert CubeRoot(137, 5, 0x27B70A85);
    assert CubeRoot(139, 5, 0x2E1B2138);
    assert CubeRoot(149, 5, 0x4D2C6DFC);
    assert CubeRoot(151, 5, 0x53380D13);
  }

  lemma {:induction false} ConstantsAreRoots9(t: nat)
    requires 36 <= t < 40
    ensures CubeRootBits(Prime(t), K(t) as int)
  {
    assert CubeRoot(157, 5, 0x650A7354);
    assert CubeRoot(163, 5, 0x766A0ABB);
    assert CubeRoot(167, 5, 0x81C2C92E);
    assert CubeRoot(173, 5, 0x92722C85);
  }

  lemma {:induction false} ConstantsAreRoots10(t: nat)
    requires 40 <= t < 44
    ensures CubeRootBits(Prime(t), K(t) as int)
  {
    assert CubeRoot(179, 5, 0xA2BFE8A1);
    assert CubeRoot(181, 5, 0xA81A664B);
    assert CubeRoot(191, 5, 0xC24B8B70);
    assert CubeRoot(193, 5, 0xC76C51A3);
  }

  lemma {:induction false} ConstantsAreRoots11(t: nat)
    requires 44 <= t < 48
    ensures CubeRootBits(Prime(t), K(t) as int)
  {
    assert CubeRoot(197, 5, 0xD192E819);
    assert CubeRoot(199, 5, 0xD6990624);
    assert CubeRoot(211, 5, 0xF40E3585);
    assert CubeRoot(223, 6, 0x106AA070);
  }

  lemma {:induction false} ConstantsAreRoots12(t: nat)
    requires 48 <= t < 52
    ensures CubeRootBits(Prime(t), K(t) as int)
  {
    assert CubeRoot(227, 6, 0x19A4C116);
    assert CubeRoot(229, 6, 0x1E376C08);
    assert CubeRoot(233, 6, 0x2748774C);
    assert CubeRoot(239, 6, 0x34B0BCB5);
  }

  lemma {:induction false} ConstantsAreRoots13(t: nat)
    requires 52 <= t < 56
    ensures CubeRootBits(Prime(t), K(t) as int)
  {
    assert CubeRoot(241, 6, 0x391C0CB3);
    assert CubeRoot(251, 6, 0x4ED8AA4A);
    assert CubeRoot(257, 6, 0x5B9CCA4F);
    assert CubeRoot(263, 6, 0x682E6FF3);
  }

  lemma {:induction false} ConstantsAreRoots14(t: nat)
    requires 56 <= t < 60
    ensures CubeRootBits(Prime(t), K(t) as int)
  {
    assert CubeRoot(269, 6, 0x748F82EE);
    assert CubeRoot(271, 6, 0x78A5636F);
    assert CubeRoot(277, 6, 0x84C87814);
    assert CubeRoot(281, 6, 0x8CC70208);
  }

  lemma {:induction false} ConstantsAreRoots15(t: nat)
    requires 60 <= t < 64
    ensures CubeRootBits(Prime(t), K(t) as int)
  {
    assert CubeRoot(283, 6, 0x90BEFFFA);
    assert CubeRoot(293, 6, 0xA4506CEB);
    assert CubeRoot(307, 6, 0xBEF9A3F7);
    assert CubeRoot(311, 6, 0xC67178F2);
  }

  /** Section 5.3.3 of FIPS 180-4: the initial hash value are square roots of the
      first eight primes. */
  lemma {:induction false} InitialAreRoots()
    ensures SquareRootBits(Prime(0), INITIAL.a as int) && SquareRootBits(Prime(1), INITIAL.b as int)
    ensures SquareRootBits(Prime(2), INITIAL.c as int) && SquareRootBits(Prime(3), INITIAL.d as int)
    ensures SquareRootBits(Prime(4), INITIAL.e as int) && SquareRootBits(Prime(5), INITIAL.f as int)
    ensures SquareRootBits(Prime(6), INITIAL.g as int) && SquareRootBits(Prime(7), INITIAL.h as int)
  {
    assert SquareRoot(2, 1, 0x6A09E667);
    assert SquareRoot(3, 1, 0xBB67AE85);
    assert SquareRoot(5, 2, 0x3C6EF372);
    assert SquareRoot(7, 2, 0xA54FF53A);
    assert SquareRoot(11, 3, 0x510E527F);
    assert SquareRoot(13, 3, 0x9B05688C);
    assert SquareRoot(17, 4, 0x1F83D9AB);
    assert SquareRoot(19, 4, 0x5BE0CD19);
  }
}
