/** The check values of the two checksums, as published for the digits 1 to 9 in ASCII. */
module KnownAnswers {
  import opened Bytes
  import M = MpegCrc
  import F = FrameCrc

  const DIGITS: seq<u8> := [0x31, 0x32, 0x33, 0x34, 0x35, 0x36, 0x37, 0x38, 0x39]

  lemma DigitOctets()
    ensures Octet(0x31) == 0x31
    ensures Octet(0x32) == 0x32
    ensures Octet(0x33) == 0x33
    ensures Octet(0x34) == 0x34
    ensures Octet(0x35) == 0x35
    ensures Octet(0x36) == 0x36
    ensures Octet(0x37) == 0x37
    ensures Octet(0x38) == 0x38
    ensures Octet(0x39) == 0x39
  {}

  lemma MpegSteps()
    ensures M.ByteStep(0xffff_ffff, 0x31) == 0x9efb_cf93
    ensures M.ByteStep(0x9efb_cf93, 0x32) == 0x3fec_5e6a
    ensures M.ByteStep(0x3fec_5e6a, 0x33) == 0xd952_f164
    ensures M.ByteStep(0xd952_f164, 0x34) == 0xa695_c4aa
    ensures M.ByteStep(0xa695_c4aa, 0x35) == 0xbd9a_b747
    ensures M.ByteStep(0xbd9a_b747, 0x36) == 0xd8f0_6c8f
    ensures M.ByteStep(0xd8f0_6c8f, 0x37) == 0x0d8a_14c4
    ensures M.ByteStep(0x0d8a_14c4, 0x38) == 0x49e3_c2fb
    ensures M.ByteStep(0x49e3_c2fb, 0x39) == 0x0376_e6e7
  {}

  lemma FrameSteps()
    ensures F.ByteStep(0xffff_ffff, 0x31) == 0x7c23_1048
    ensures F.ByteStep(0x7c23_1048, 0x32) == 0xb0ac_bb32
    ensures F.ByteStep(0xb0ac_bb32, 0x33) == 0x77b7_9c2d
    ensures F.ByteStep(0x77b7_9c2d, 0x34) == 0x641c_1f5c
    ensures F.ByteStep(0x641c_1f5c, 0x35) == 0x340a_c5e3
    ensures F.ByteStep(0x340a_c5e3, 0x36) == 0xf68d_2c9e
    ensures F.ByteStep(0xf68d_2c9e, 0x37) == 0xaffc_9660
    ensures F.ByteStep(0xaffc_9660, 0x38) == 0x651f_2550
    ensures F.ByteStep(0x651f_2550, 0x39) == 0x340b_c6d9
  {}

  /** One more byte of the section checksum's register. */
  lemma MpegSnoc(n: nat, octet: bv8, before: bv32, after: bv32)
    requires n < 9 && M.Register(M.ALL_ONES, DIGITS[..n]) == before
    requires Octet(DIGITS[n]) == octet && M.ByteStep(before, octet) == after
    ensures M.Register(M.ALL_ONES, DIGITS[..n + 1]) == after
  {
    hide M.ByteStep, Octet;
    assert DIGITS[..n + 1][..n] == DIGITS[..n];
  }

  lemma FrameSnoc(n: nat, octet: bv8, before: bv32, after: bv32)
    requires n < 9 && F.Register(M.ALL_ONES, DIGITS[..n]) == before
    requires Octet(DIGITS[n]) == octet && F.ByteStep(before, octet) == after
    ensures F.Register(M.ALL_ONES, DIGITS[..n + 1]) == after
  {
    hide F.ByteStep, Octet;
    assert DIGITS[..n + 1][..n] == DIGITS[..n];
  }

  /** The section checksum of the nine digits. */
  lemma MpegCheckValue()
    ensures M.Crc(DIGITS) == 0x0376_e6e7
  {
    hide M.ByteStep, Octet;
    DigitOctets();
    MpegSteps();
    assert DIGITS[..0] == [];
    MpegSnoc(0, 0x31, 0xffff_ffff, 0x9efb_cf93);
    MpegSnoc(1, 0x32, 0x9efb_cf93, 0x3fec_5e6a);
    MpegSnoc(2, 0x33, 0x3fec_5e6a, 0xd952_f164);
    MpegSnoc(3, 0x34, 0xd952_f164, 0xa695_c4aa);
    MpegSnoc(4, 0x35, 0xa695_c4aa, 0xbd9a_b747);
    MpegSnoc(5, 0x36, 0xbd9a_b747, 0xd8f0_6c8f);
    MpegSnoc(6, 0x37, 0xd8f0_6c8f, 0x0d8a_14c4);
    MpegSnoc(7, 0x38, 0x0d8a_14c4, 0x49e3_c2fb);
    MpegSnoc(8, 0x39, 0x49e3_c2fb, 0x0376_e6e7);
    assert DIGITS[..9] == DIGITS;
  }

  /** The frame checksum of the nine digits. */
  lemma FrameCheckValue()
    ensures F.Crc(DIGITS) == 0xcbf4_3926
  {
    hide F.ByteStep, Octet, F.Not;
    DigitOctets();
    FrameSteps();
    assert DIGITS[..0] == [];
    FrameSnoc(0, 0x31, 0xffff_ffff, 0x7c23_1048);
    FrameSnoc(1, 0x32, 0x7c23_1048, 0xb0ac_bb32);
    FrameSnoc(2, 0x33, 0xb0ac_bb32, 0x77b7_9c2d);
    FrameSnoc(3, 0x34, 0x77b7_9c2d, 0x641c_1f5c);
    FrameSnoc(4, 0x35, 0x641c_1f5c, 0x340a_c5e3);
    FrameSnoc(5, 0x36, 0x340a_c5e3, 0xf68d_2c9e);
    FrameSnoc(6, 0x37, 0xf68d_2c9e, 0xaffc_9660);
    FrameSnoc(7, 0x38, 0xaffc_9660, 0x651f_2550);
    FrameSnoc(8, 0x39, 0x651f_2550, 0x340b_c6d9);
    assert DIGITS[..9] == DIGITS;
    Complement();
  }

  lemma Complement()
    ensures F.Not(0x340b_c6d9) == 0xcbf4_3926
  {}
}
