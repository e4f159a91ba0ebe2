/** The key derivation of the shared-memory channel (`make_hash`): a table
    driven CRC-32 with the polynomial 0x04C11DB7, processed most significant
    bit first, initial value 0xFFFFFFFF, no reflection and no final XOR (the
    CRC-32/MPEG-2 variant of ISO/IEC 13818-1, Annex A). Channel and mutex
    names are modelled as the bytes of the C string before its terminating
    NUL; `(digest >> 24) ^ str[i]` masked with 0xFF is the same byte whether
    `char` is signed or not. */
module Crc32 {

  const Polynomial: bv32 := 0x04C1_1DB7
  const Initial: bv32 := 0xFFFF_FFFF

  // `CRC32_TABLE`, entry for entry, in rows of sixteen.

  /** `CRC32_TABLE[0]` to `CRC32_TABLE[15]`, by column. */
  function Row0(col: bv8): bv32 {
    if col < 8 then
      if col < 4 then
        if col < 2 then
          if col < 1 then 0x0000_0000 else 0x04C1_1DB7
        else
          if col < 3 then 0x0982_3B6E else 0x0D43_26D9
      else
        if col < 6 then
          if col < 5 then 0x1304_76DC else 0x17C5_6B6B
        else
          if col < 7 then 0x1A86_4DB2 else 0x1E47_5005
    else
      if col < 12 then
        if col < 10 then
          if col < 9 then 0x2608_EDB8 else 0x22C9_F00F
        else
          if col < 11 then 0x2F8A_D6D6 else 0x2B4B_CB61
      else
        if col < 14 then
          if col < 13 then 0x350C_9B64 else 0x31CD_86D3
        else
          if col < 15 then 0x3C8E_A00A else 0x384F_BDBD
  }

  /** `CRC32_TABLE[16]` to `CRC32_TABLE[31]`, by column. */
  function Row1(col: bv8): bv32 {
    if col < 8 then
      if col < 4 then
        if col < 2 then
          if col < 1 then 0x4C11_DB70 else 0x48D0_C6C7
        else
          if col < 3 then 0x4593_E01E else 0x4152_FDA9
      else
        if col < 6 then
          if col < 5 then 0x5F15_ADAC else 0x5BD4_B01B
        else
          if col < 7 then 0x5697_96C2 else 0x5256_8B75
    else
      if col < 12 then
        if col < 10 then
          if col < 9 then 0x6A19_36C8 else 0x6ED8_2B7F
        else
          if col < 11 then 0x639B_0DA6 else 0x675A_1011
      else
        if col < 14 then
          if col < 13 then 0x791D_4014 else 0x7DDC_5DA3
        else
          if col < 15 then 0x709F_7B7A else 0x745E_66CD
  }

  /** `CRC32_TABLE[32]` to `CRC32_TABLE[47]`, by column. */
  function Row2(col: bv8): bv32 {
    if col < 8 then
      if col < 4 then
        if col < 2 then
          if col < 1 then 0x9823_B6E0 else 0x9CE2_AB57
        else
          if col < 3 then 0x91A1_8D8E else 0x9560_9039
      else
        if col < 6 then
          if col < 5 then 0x8B27_C03C else 0x8FE6_DD8B
        else
          if col < 7 then 0x82A5_FB52 else 0x8664_E6E5
    else
      if col < 12 then
        if col < 10 then
          if col < 9 then 0xBE2B_5B58 else 0xBAEA_46EF
        else
          if col < 11 then 0xB7A9_6036 else 0xB368_7D81
      else
        if col < 14 then
          if col < 13 then 0xAD2F_2D84 else 0xA9EE_3033
        else
          if col < 15 then 0xA4AD_16EA else 0xA06C_0B5D
  }

  /** `CRC32_TABLE[48]` to `CRC32_TABLE[63]`, by column. */
  function Row3(col: bv8): bv32 {
    if col < 8 then
      if col < 4 then
        if col < 2 then
          if col < 1 then 0xD432_6D90 else 0xD0F3_7027
        else
          if col < 3 then 0xDDB0_56FE else 0xD971_4B49
      else
        if col < 6 then
          if col < 5 then 0xC736_1B4C else 0xC3F7_06FB
        else
          if col < 7 then 0xCEB4_2022 else 0xCA75_3D95
    else
      if col < 12 then
        if col < 10 then
          if col < 9 then 0xF23A_8028 else 0xF6FB_9D9F
        else
          if col < 11 then 0xFBB8_BB46 else 0xFF79_A6F1
      else
        if col < 14 then
          if col < 13 then 0xE13E_F6F4 else 0xE5FF_EB43
        else
          if col < 15 then 0xE8BC_CD9A else 0xEC7D_D02D
  }

  /** `CRC32_TABLE[64]` to `CRC32_TABLE[79]`, by column. */
  function Row4(col: bv8): bv32 {
    if col < 8 then
      if col < 4 then
        if col < 2 then
          if col < 1 then 0x3486_7077 else 0x3047_6DC0
        else
          if col < 3 then 0x3D04_4B19 else 0x39C5_56AE
      else
        if col < 6 then
          if col < 5 then 0x2782_06AB else 0x2343_1B1C
        else
          if col < 7 then 0x2E00_3DC5 else 0x2AC1_2072
    else
      if col < 12 then
        if col < 10 then
          if col < 9 then 0x128E_9DCF else 0x164F_8078
        else
          if col < 11 then 0x1B0C_A6A1 else 0x1FCD_BB16
      else
        if col < 14 then
          if col < 13 then 0x018A_EB13 else 0x054B_F6A4
        else
          if col < 15 then 0x0808_D07D else 0x0CC9_CDCA
  }

  /** `CRC32_TABLE[80]` to `CRC32_TABLE[95]`, by column. */
  function Row5(col: bv8): bv32 {
    if col < 8 then
      if col < 4 then
        if col < 2 then
          if col < 1 then 0x7897_AB07 else 0x7C56_B6B0
        else
          if col < 3 then 0x7115_9069 else 0x75D4_8DDE
      else
        if col < 6 then
          if col < 5 then 0x6B93_DDDB else 0x6F52_C06C
        else
          if col < 7 then 0x6211_E6B5 else 0x66D0_FB02
    else
      if col < 12 then
        if col < 10 then
          if col < 9 then 0x5E9F_46BF else 0x5A5E_5B08
        else
          if col < 11 then 0x571D_7DD1 else 0x53DC_6066
      else
        if col < 14 then
          if col < 13 then 0x4D9B_3063 else 0x495A_2DD4
        else
          if col < 15 then 0x4419_0B0D else 0x40D8_16BA
  }

  /** `CRC32_TABLE[96]` to `CRC32_TABLE[111]`, by column. */
  function Row6(col: bv8): bv32 {
    if col < 8 then
      if col < 4 then
        if col < 2 then
          if col < 1 then 0xACA5_C697 else 0xA864_DB20
        else
          if col < 3 then 0xA527_FDF9 else 0xA1E6_E04E
      else
        if col < 6 then
          if col < 5 then 0xBFA1_B04B else 0xBB60_ADFC
        else
          if col < 7 then 0xB623_8B25 else 0xB2E2_9692
    else
      if col < 12 then
        if col < 10 then
          if col < 9 then 0x8AAD_2B2F else 0x8E6C_3698
        else
          if col < 11 then 0x832F_1041 else 0x87EE_0DF6
      else
        if col < 14 then
          if col < 13 then 0x99A9_5DF3 else 0x9D68_4044
        else
          if col < 15 then 0x902B_669D else 0x94EA_7B2A
  }

  /** `CRC32_TABLE[112]` to `CRC32_TABLE[127]`, by column. */
  function Row7(col: bv8): bv32 {
    if col < 8 then
      if col < 4 then
        if col < 2 then
          if col < 1 then 0xE0B4_1DE7 else 0xE475_0050
        else
          if col < 3 then 0xE936_2689 else 0xEDF7_3B3E
      else
        if col < 6 then
          if col < 5 then 0xF3B0_6B3B else 0xF771_768C
        else
          if col < 7 then 0xFA32_5055 else 0xFEF3_4DE2
    else
      if col < 12 then
        if col < 10 then
          if col < 9 then 0xC6BC_F05F else 0xC27D_EDE8
        else
          if col < 11 then 0xCF3E_CB31 else 0xCBFF_D686
      else
        if col < 14 then
          if col < 13 then 0xD5B8_8683 else 0xD179_9B34
        else
          if col < 15 then 0xDC3A_BDED else 0xD8FB_A05A
  }

  /** `CRC32_TABLE[128]` to `CRC32_TABLE[143]`, by column. */
  function Row8(col: bv8): bv32 {
    if col < 8 then
      if col < 4 then
        if col < 2 then
          if col < 1 then 0x690C_E0EE else 0x6DCD_FD59
        else
          if col < 3 then 0x608E_DB80 else 0x644F_C637
      else
        if col < 6 then
          if col < 5 then 0x7A08_9632 else 0x7EC9_8B85
        else
          if col < 7 then 0x738A_AD5C else 0x774B_B0EB
    else
      if col < 12 then
        if col < 10 then
          if col < 9 then 0x4F04_0D56 else 0x4BC5_10E1
        else
          if col < 11 then 0x4686_3638 else 0x4247_2B8F
      else
        if col < 14 then
          if col < 13 then 0x5C00_7B8A else 0x58C1_663D
        else
          if col < 15 then 0x5582_40E4 else 0x5143_5D53
  }

  /** `CRC32_TABLE[144]` to `CRC32_TABLE[159]`, by column. */
  function Row9(col: bv8): bv32 {
    if col < 8 then
      if col < 4 then
        if col < 2 then
          if col < 1 then 0x251D_3B9E else 0x21DC_2629
        else
          if col < 3 then 0x2C9F_00F0 else 0x285E_1D47
      else
        if col < 6 then
          if col < 5 then 0x3619_4D42 else 0x32D8_50F5
        else
          if col < 7 then 0x3F9B_762C else 0x3B5A_6B9B
    else
      if col < 12 then
        if col < 10 then
          if col < 9 then 0x0315_D626 else 0x07D4_CB91
        else
          if col < 11 then 0x0A97_ED48 else 0x0E56_F0FF
      else
        if col < 14 then
          if col < 13 then 0x1011_A0FA else 0x14D0_BD4D
        else
          if col < 15 then 0x1993_9B94 else 0x1D52_8623
  }

  /** `CRC32_TABLE[160]` to `CRC32_TABLE[175]`, by column. */
  function Row10(col: bv8): bv32 {
    if col < 8 then
      if col < 4 then
        if col < 2 then
          if col < 1 then 0xF12F_560E else 0xF5EE_4BB9
        else
          if col < 3 then 0xF8AD_6D60 else 0xFC6C_70D7
      else
        if col < 6 then
          if col < 5 then 0xE22B_20D2 else 0xE6EA_3D65
        else
          if col < 7 then 0xEBA9_1BBC else 0xEF68_060B
    else
      if col < 12 then
        if col < 10 then
          if col < 9 then 0xD727_BBB6 else 0xD3E6_A601
        else
          if col < 11 then 0xDEA5_80D8 else 0xDA64_9D6F
      else
        if col < 14 then
          if col < 13 then 0xC423_CD6A else 0xC0E2_D0DD
        else
          if col < 15 then 0xCDA1_F604 else 0xC960_EBB3
  }

  /** `CRC32_TABLE[176]` to `CRC32_TABLE[191]`, by column. */
  function Row11(col: bv8): bv32 {
    if col < 8 then
      if col < 4 then
        if col < 2 then
          if col < 1 then 0xBD3E_8D7E else 0xB9FF_90C9
        else
          if col < 3 then 0xB4BC_B610 else 0xB07D_ABA7
      else
        if col < 6 then
          if col < 5 then 0xAE3A_FBA2 else 0xAAFB_E615
        else
          if col < 7 then 0xA7B8_C0CC else 0xA379_DD7B
    else
      if col < 12 then
        if col < 10 then
          if col < 9 then 0x9B36_60C6 else 0x9FF7_7D71
        else
          if col < 11 then 0x92B4_5BA8 else 0x9675_461F
      else
        if col < 14 then
          if col < 13 then 0x8832_161A else 0x8CF3_0BAD
        else
          if col < 15 then 0x81B0_2D74 else 0x8571_30C3
  }

  /** `CRC32_TABLE[192]` to `CRC32_TABLE[207]`, by column. */
  function Row12(col: bv8): bv32 {
    if col < 8 then
      if col < 4 then
        if col < 2 then
          if col < 1 then 0x5D8A_9099 else 0x594B_8D2E
        else
          if col < 3 then 0x5408_ABF7 else 0x50C9_B640
      else
        if col < 6 then
          if col < 5 then 0x4E8E_E645 else 0x4A4F_FBF2
        else
          if col < 7 then 0x470C_DD2B else 0x43CD_C09C
    else
      if col < 12 then
        if col < 10 then
          if col < 9 then 0x7B82_7D21 else 0x7F43_6096
        else
          if col < 11 then 0x7200_464F else 0x76C1_5BF8
      else
        if col < 14 then
          if col < 13 then 0x6886_0BFD else 0x6C47_164A
        else
          if col < 15 then 0x6104_3093 else 0x65C5_2D24
  }

  /** `CRC32_TABLE[208]` to `CRC32_TABLE[223]`, by column. */
  function Row13(col: bv8): bv32 {
    if col < 8 then
      if col < 4 then
        if col < 2 then
          if col < 1 then 0x119B_4BE9 else 0x155A_565E
        else
          if col < 3 then 0x1819_7087 else 0x1CD8_6D30
      else
        if col < 6 then
          if col < 5 then 0x029F_3D35 else 0x065E_2082
        else
          if col < 7 then 0x0B1D_065B else 0x0FDC_1BEC
    else
      if col < 12 then
        if col < 10 then
          if col < 9 then 0x3793_A651 else 0x3352_BBE6
        else
          if col < 11 then 0x3E11_9D3F else 0x3AD0_8088
      else
        if col < 14 then
          if col < 13 then 0x2497_D08D else 0x2056_CD3A
        else
          if col < 15 then 0x2D15_EBE3 else 0x29D4_F654
  }

  /** `CRC32_TABLE[224]` to `CRC32_TABLE[239]`, by column. */
  function Row14(col: bv8): bv32 {
    if col < 8 then
      if col < 4 then
        if col < 2 then
          if col < 1 then 0xC5A9_2679 else 0xC168_3BCE
        else
          if col < 3 then 0xCC2B_1D17 else 0xC8EA_00A0
      else
        if col < 6 then
          if col < 5 then 0xD6AD_50A5 else 0xD26C_4D12
        else
          if col < 7 then 0xDF2F_6BCB else 0xDBEE_767C
    else
      if col < 12 then
        if col < 10 then
          if col < 9 then 0xE3A1_CBC1 else 0xE760_D676
        else
          if col < 11 then 0xEA23_F0AF else 0xEEE2_ED18
      else
        if col < 14 then
          if col < 13 then 0xF0A5_BD1D else 0xF464_A0AA
        else
          if col < 15 then 0xF927_8673 else 0xFDE6_9BC4
  }

  /** `CRC32_TABLE[240]` to `CRC32_TABLE[255]`, by column. */
  function Row15(col: bv8): bv32 {
    if col < 8 then
      if col < 4 then
        if col < 2 then
          if col < 1 then 0x89B8_FD09 else 0x8D79_E0BE
        else
          if col < 3 then 0x803A_C667 else 0x84FB_DBD0
      else
        if col < 6 then
          if col < 5 then 0x9ABC_8BD5 else 0x9E7D_9662
        else
          if col < 7 then 0x933E_B0BB else 0x97FF_AD0C
    else
      if col < 12 then
        if col < 10 then
          if col < 9 then 0xAFB0_10B1 else 0xAB71_0D06
        else
          if col < 11 then 0xA632_2BDF else 0xA2F3_3668
      else
        if col < 14 then
          if col < 13 then 0xBCB4_666D else 0xB875_7BDA
        else
          if col < 15 then 0xB536_5D03 else 0xB1F7_40B4
  }

  /** `CRC32_TABLE[i]`: row `i >> 4`, column `i & 0xF`. */
  function TableAt(i: bv8): bv32 {
    if i >> 4 < 8 then
      if i >> 4 < 4 then
        if i >> 4 < 2 then
          if i >> 4 < 1 then Row0(i & 0xF) else Row1(i & 0xF)
        else
          if i >> 4 < 3 then Row2(i & 0xF) else Row3(i & 0xF)
      else
        if i >> 4 < 6 then
          if i >> 4 < 5 then Row4(i & 0xF) else Row5(i & 0xF)
        else
          if i >> 4 < 7 then Row6(i & 0xF) else Row7(i & 0xF)
    else
      if i >> 4 < 12 then
        if i >> 4 < 10 then
          if i >> 4 < 9 then Row8(i & 0xF) else Row9(i & 0xF)
        else
          if i >> 4 < 11 then Row10(i & 0xF) else Row11(i & 0xF)
      else
        if i >> 4 < 14 then
          if i >> 4 < 13 then Row12(i & 0xF) else Row13(i & 0xF)
        else
          if i >> 4 < 15 then Row14(i & 0xF) else Row15(i & 0xF)
  }

  // ------------------------------------------------- bitwise reference CRC

  /** One bit of polynomial division: shift left, and subtract (XOR) the
      polynomial when the bit shifted out was set (`0 - (x >> 31)` is all
      ones exactly then). */
  function Step(x: bv32): bv32 {
    (x << 1) ^ (Polynomial & (0 - (x >> 31)))
  }

  /** `n` steps of the division. */
  function Steps(x: bv32, n: nat): bv32
    decreases n
  {
    if n == 0 then x else Steps(Step(x), n - 1)
  }

  /** The remainder of the byte `b` placed in the top eight bits of the register. */
  function TableEntry(b: bv8): bv32 {
    Steps((b as bv32) << 24, 8)
  }

  /** Feeding one byte into the register bit by bit, most significant bit first. */
  function Update(digest: bv32, b: bv8): bv32 {
    Steps(digest ^ ((b as bv32) << 24), 8)
  }

  /** The CRC-32/MPEG-2 of a byte string, defined bit by bit. */
  function Crc(bytes: seq<bv8>): bv32 {
    if bytes == [] then Initial else Update(Crc(bytes[..|bytes| - 1]), bytes[|bytes| - 1])
  }

  // ----------------------------------------------------------- check value

  /** The check value of the CRC-32/MPEG-2 catalogue entry: the CRC of the
      ASCII digits "123456789" is 0x0376E6E7. */
  lemma CheckValue()
    ensures Crc([0x31, 0x32, 0x33, 0x34, 0x35, 0x36, 0x37, 0x38, 0x39]) == 0x0376_E6E7
  {
    var s: seq<bv8> := [];
    CrcSnoc(s, 0x31);
    s := s + [0x31];
    assert Crc(s) == 0x9EFB_CF93;
    CrcSnoc(s, 0x32);
    s := s + [0x32];
    assert Crc(s) == 0x3FEC_5E6A;
    CrcSnoc(s, 0x33);
    s := s + [0x33];
    assert Crc(s) == 0xD952_F164;
    CrcSnoc(s, 0x34);
    s := s + [0x34];
    assert Crc(s) == 0xA695_C4AA;
    CrcSnoc(s, 0x35);
    s := s + [0x35];
    assert Crc(s) == 0xBD9A_B747;
    CrcSnoc(s, 0x36);
    s := s + [0x36];
    assert Crc(s) == 0xD8F0_6C8F;
    CrcSnoc(s, 0x37);
    s := s + [0x37];
    assert Crc(s) == 0x0D8A_14C4;
    CrcSnoc(s, 0x38);
    s := s + [0x38];
    assert Crc(s) == 0x49E3_C2FB;
    CrcSnoc(s, 0x39);
    s := s + [0x39];
    assert Crc(s) == 0x0376_E6E7;
    assert s == [0x31, 0x32, 0x33, 0x34, 0x35, 0x36, 0x37, 0x38, 0x39];
  }

  // ---------------------------------------------- the table step is 8 bits

  /** Eight steps, written out. */
  function Step8(x: bv32): bv32 {
    Step(Step(Step(Step(Step(Step(Step(Step(x))))))))
  }

  lemma StepsEight(x: bv32)
    ensures Steps(x, 8) == Step8(x)
  {
    var x1 := Step(x);
    var x2 := Step(x1);
    var x3 := Step(x2);
    var x4 := Step(x3);
    var x5 := Step(x4);
    var x6 := Step(x5);
    var x7 := Step(x6);
    assert Steps(x, 8) == Steps(x1, 7) == Steps(x2, 6) == Steps(x3, 5) == Steps(x4, 4);
    assert Steps(x4, 4) == Steps(x5, 3) == Steps(x6, 2) == Steps(x7, 1) == Step(x7);
  }

  /** The division is linear, so the low 24 bits of the register only shift
      and the top byte XORed with the input byte selects the remainder. */
  lemma Step8Table(d: bv32, b: bv8)
    ensures (d << 8) ^ Step8((((d >> 24) ^ (b as bv32)) & 0xFF) << 24) == Step8(d ^ ((b as bv32) << 24))
  {
  }

  /** One iteration of the table loop feeds one byte bit by bit. */
  lemma TableStep(d: bv32, b: bv8)
    ensures (d << 8) ^ TableEntry((((d >> 24) ^ (b as bv32)) & 0xFF) as bv8) == Update(d, b)
  {
    var index := (((d >> 24) ^ (b as bv32)) & 0xFF) as bv8;
    assert (index as bv32) << 24 == (((d >> 24) ^ (b as bv32)) & 0xFF) << 24;
    StepsEight((index as bv32) << 24);
    StepsEight(d ^ ((b as bv32) << 24));
    Step8Table(d, b);
  }

  // --------------------------------------------------------------- the table
  // Each slice checks eight entries against the bitwise remainder.

  lemma Slice0IsPolynomial(b: bv8)
    requires b >> 3 == 0
    ensures TableAt(b) == TableEntry(b)
  {
    if b == 0 { assert TableAt(0) == TableEntry(0); }
    else if b == 1 { assert TableAt(1) == TableEntry(1); }
    else if b == 2 { assert TableAt(2) == TableEntry(2); }
    else if b == 3 { assert TableAt(3) == TableEntry(3); }
    else if b == 4 { assert TableAt(4) == TableEntry(4); }
    else if b == 5 { assert TableAt(5) == TableEntry(5); }
    else if b == 6 { assert TableAt(6) == TableEntry(6); }
    else { assert b == 7; assert TableAt(7) == TableEntry(7); }
  }

  lemma Slice1IsPolynomial(b: bv8)
    requires b >> 3 == 1
    ensures TableAt(b) == TableEntry(b)
  {
    if b == 8 { assert TableAt(8) == TableEntry(8); }
    else if b == 9 { assert TableAt(9) == TableEntry(9); }
    else if b == 10 { assert TableAt(10) == TableEntry(10); }
    else if b == 11 { assert TableAt(11) == TableEntry(11); }
    else if b == 12 { assert TableAt(12) == TableEntry(12); }
    else if b == 13 { assert TableAt(13) == TableEntry(13); }
    else if b == 14 { assert TableAt(14) == TableEntry(14); }
    else { assert b == 15; assert TableAt(15) == TableEntry(15); }
  }

  lemma Slice2IsPolynomial(b: bv8)
    requires b >> 3 == 2
    ensures TableAt(b) == TableEntry(b)
  {
    if b == 16 { assert TableAt(16) == TableEntry(16); }
    else if b == 17 { assert TableAt(17) == TableEntry(17); }
    else if b == 18 { assert TableAt(18) == TableEntry(18); }
    else if b == 19 { assert TableAt(19) == TableEntry(19); }
    else if b == 20 { assert TableAt(20) == TableEntry(20); }
    else if b == 21 { assert TableAt(21) == TableEntry(21); }
    else if b == 22 { assert TableAt(22) == TableEntry(22); }
    else { assert b == 23; assert TableAt(23) == TableEntry(23); }
  }

  lemma Slice3IsPolynomial(b: bv8)
    requires b >> 3 == 3
    ensures TableAt(b) == TableEntry(b)
  {
    if b == 24 { assert TableAt(24) == TableEntry(24); }
    else if b == 25 { assert TableAt(25) == TableEntry(25); }
    else if b == 26 { assert TableAt(26) == TableEntry(26); }
    else if b == 27 { assert TableAt(27) == TableEntry(27); }
    else if b == 28 { assert TableAt(28) == TableEntry(28); }
    else if b == 29 { assert TableAt(29) == TableEntry(29); }
    else if b == 30 { assert TableAt(30) == TableEntry(30); }
    else { assert b == 31; assert TableAt(31) == TableEntry(31); }
  }

  lemma Slice4IsPolynomial(b: bv8)
    requires b >> 3 == 4
    ensures TableAt(b) == TableEntry(b)
  {
    if b == 32 { assert TableAt(32) == TableEntry(32); }
    else if b == 33 { assert TableAt(33) == TableEntry(33); }
    else if b == 34 { assert TableAt(34) == TableEntry(34); }
    else if b == 35 { assert TableAt(35) == TableEntry(35); }
    else if b == 36 { assert TableAt(36) == TableEntry(36); }
    else if b == 37 { assert TableAt(37) == TableEntry(37); }
    else if b == 38 { assert TableAt(38) == TableEntry(38); }
    else { assert b == 39; assert TableAt(39) == TableEntry(39); }
  }

  lemma Slice5IsPolynomial(b: bv8)
    requires b >> 3 == 5
    ensures TableAt(b) == TableEntry(b)
  {
    if b == 40 { assert TableAt(40) == TableEntry(40); }
    else if b == 41 { assert TableAt(41) == TableEntry(41); }
    else if b == 42 { assert TableAt(42) == TableEntry(42); }
    else if b == 43 { assert TableAt(43) == TableEntry(43); }
    else if b == 44 { assert TableAt(44) == TableEntry(44); }
    else if b == 45 { assert TableAt(45) == TableEntry(45); }
    else if b == 46 { assert TableAt(46) == TableEntry(46); }
    else { assert b == 47; assert TableAt(47) == TableEntry(47); }
  }

  lemma Slice6IsPolynomial(b: bv8)
    requires b >> 3 == 6
    ensures TableAt(b) == TableEntry(b)
  {
    if b == 48 { assert TableAt(48) == TableEntry(48); }
    else if b == 49 { assert TableAt(49) == TableEntry(49); }
    else if b == 50 { assert TableAt(50) == TableEntry(50); }
    else if b == 51 { assert TableAt(51) == TableEntry(51); }
    else if b == 52 { assert TableAt(52) == TableEntry(52); }
    else if b == 53 { assert TableAt(53) == TableEntry(53); }
    else if b == 54 { assert TableAt(54) == TableEntry(54); }
    else { assert b == 55; assert TableAt(55) == TableEntry(55); }
  }

  lemma Slice7IsPolynomial(b: bv8)
    requires b >> 3 == 7
    ensures TableAt(b) == TableEntry(b)
  {
    if b == 56 { assert TableAt(56) == TableEntry(56); }
    else if b == 57 { assert TableAt(57) == TableEntry(57); }
    else if b == 58 { assert TableAt(58) == TableEntry(58); }
    else if b == 59 { assert TableAt(59) == TableEntry(59); }
    else if b == 60 { assert TableAt(60) == TableEntry(60); }
    else if b == 61 { assert TableAt(61) == TableEntry(61); }
    else if b == 62 { assert TableAt(62) == TableEntry(62); }
    else { assert b == 63; assert TableAt(63) == TableEntry(63); }
  }

  lemma Slice8IsPolynomial(b: bv8)
    requires b >> 3 == 8
    ensures TableAt(b) == TableEntry(b)
  {
    if b == 64 { assert TableAt(64) == TableEntry(64); }
    else if b == 65 { assert TableAt(65) == TableEntry(65); }
    else if b == 66 { assert TableAt(66) == TableEntry(66); }
    else if b == 67 { assert TableAt(67) == TableEntry(67); }
    else if b == 68 { assert TableAt(68) == TableEntry(68); }
    else if b == 69 { assert TableAt(69) == TableEntry(69); }
    else if b == 70 { assert TableAt(70) == TableEntry(70); }
    else { assert b == 71; assert TableAt(71) == TableEntry(71); }
  }

  lemma Slice9IsPolynomial(b: bv8)
    requires b >> 3 == 9
    ensures TableAt(b) == TableEntry(b)
  {
    if b == 72 { assert TableAt(72) == TableEntry(72); }
    else if b == 73 { assert TableAt(73) == TableEntry(73); }
    else if b == 74 { assert TableAt(74) == TableEntry(74); }
    else if b == 75 { assert TableAt(75) == TableEntry(75); }
    else if b == 76 { assert TableAt(76) == TableEntry(76); }
    else if b == 77 { assert TableAt(77) == TableEntry(77); }
    else if b == 78 { assert TableAt(78) == TableEntry(78); }
    else { assert b == 79; assert TableAt(79) == TableEntry(79); }
  }

  lemma Slice10IsPolynomial(b: bv8)
    requires b >> 3 == 10
    ensures TableAt(b) == TableEntry(b)
  {
    if b == 80 { assert TableAt(80) == TableEntry(80); }
    else if b == 81 { assert TableAt(81) == TableEntry(81); }
    else if b == 82 { assert TableAt(82) == TableEntry(82); }
    else if b == 83 { assert TableAt(83) == TableEntry(83); }
    else if b == 84 { assert TableAt(84) == TableEntry(84); }
    else if b == 85 { assert TableAt(85) == TableEntry(85); }
    else if b == 86 { assert TableAt(86) == TableEntry(86); }
    else { assert b == 87; assert TableAt(87) == TableEntry(87); }
  }

  lemma Slice11IsPolynomial(b: bv8)
    requires b >> 3 == 11
    ensures TableAt(b) == TableEntry(b)
  {
    if b == 88 { assert TableAt(88) == TableEntry(88); }
    else if b == 89 { assert TableAt(89) == TableEntry(89); }
    else if b == 90 { assert TableAt(90) == TableEntry(90); }
    else if b == 91 { assert TableAt(91) == TableEntry(91); }
    else if b == 92 { assert TableAt(92) == TableEntry(92); }
    else if b == 93 { assert TableAt(93) == TableEntry(93); }
    else if b == 94 { assert TableAt(94) == TableEntry(94); }
    else { assert b == 95; assert TableAt(95) == TableEntry(95); }
  }

  lemma Slice12IsPolynomial(b: bv8)
    requires b >> 3 == 12
    ensures TableAt(b) == TableEntry(b)
  {
    if b == 96 { assert TableAt(96) == TableEntry(96); }
    else if b == 97 { assert TableAt(97) == TableEntry(97); }
    else if b == 98 { assert TableAt(98) == TableEntry(98); }
    else if b == 99 { assert TableAt(99) == TableEntry(99); }
    else if b == 100 { assert TableAt(100) == TableEntry(100); }
    else if b == 101 { assert TableAt(101) == TableEntry(101); }
    else if b == 102 { assert TableAt(102) == TableEntry(102); }
    else { assert b == 103; assert TableAt(103) == TableEntry(103); }
  }

  lemma Slice13IsPolynomial(b: bv8)
    requires b >> 3 == 13
    ensures TableAt(b) == TableEntry(b)
  {
    if b == 104 { assert TableAt(104) == TableEntry(104); }
    else if b == 105 { assert TableAt(105) == TableEntry(105); }
    else if b == 106 { assert TableAt(106) == TableEntry(106); }
    else if b == 107 { assert TableAt(107) == TableEntry(107); }
    else if b == 108 { assert TableAt(108) == TableEntry(108); }
    else if b == 109 { assert TableAt(109) == TableEntry(109); }
    else if b == 110 { assert TableAt(110) == TableEntry(110); }
    else { assert b == 111; assert TableAt(111) == TableEntry(111); }
  }

  lemma Slice14IsPolynomial(b: bv8)
    requires b >> 3 == 14
    ensures TableAt(b) == TableEntry(b)
  {
    if b == 112 { assert TableAt(112) == TableEntry(112); }
    else if b == 113 { assert TableAt(113) == TableEntry(113); }
    else if b == 114 { assert TableAt(114) == TableEntry(114); }
    else if b == 115 { assert TableAt(115) == TableEntry(115); }
    else if b == 116 { assert TableAt(116) == TableEntry(116); }
    else if b == 117 { assert TableAt(117) == TableEntry(117); }
    else if b == 118 { assert TableAt(118) == TableEntry(118); }
    else { assert b == 119; assert TableAt(119) == TableEntry(119); }
  }

  lemma Slice15IsPolynomial(b: bv8)
    requires b >> 3 == 15
    ensures TableAt(b) == TableEntry(b)
  {
    if b == 120 { assert TableAt(120) == TableEntry(120); }
    else if b == 121 { assert TableAt(121) == TableEntry(121); }
    else if b == 122 { assert TableAt(122) == TableEntry(122); }
    else if b == 123 { assert TableAt(123) == TableEntry(123); }
    else if b == 124 { assert TableAt(124) == TableEntry(124); }
    else if b == 125 { assert TableAt(125) == TableEntry(125); }
    else if b == 126 { assert TableAt(126) == TableEntry(126); }
    else { assert b == 127; assert TableAt(127) == TableEntry(127); }
  }

  lemma Slice16IsPolynomial(b: bv8)
    requires b >> 3 == 16
    ensures TableAt(b) == TableEntry(b)
  {
    if b == 128 { assert TableAt(128) == TableEntry(128); }
    else if b == 129 { assert TableAt(129) == TableEntry(129); }
    else if b == 130 { assert TableAt(130) == TableEntry(130); }
    else if b == 131 { assert TableAt(131) == TableEntry(131); }
    else if b == 132 { assert TableAt(132) == TableEntry(132); }
    else if b == 133 { assert TableAt(133) == TableEntry(133); }
    else if b == 134 { assert TableAt(134) == TableEntry(134); }
    else { assert b == 135; assert TableAt(135) == TableEntry(135); }
  }

  lemma Slice17IsPolynomial(b: bv8)
    requires b >> 3 == 17
    ensures TableAt(b) == TableEntry(b)
  {
    if b == 136 { assert TableAt(136) == TableEntry(136); }
    else if b == 137 { assert TableAt(137) == TableEntry(137); }
    else if b == 138 { assert TableAt(138) == TableEntry(138); }
    else if b == 139 { assert TableAt(139) == TableEntry(139); }
    else if b == 140 { assert TableAt(140) == TableEntry(140); }
    else if b == 141 { assert TableAt(141) == TableEntry(141); }
    else if b == 142 { assert TableAt(142) == TableEntry(142); }
    else { assert b == 143; assert TableAt(143) == TableEntry(143); }
  }

  lemma Slice18IsPolynomial(b: bv8)
    requires b >> 3 == 18
    ensures TableAt(b) == TableEntry(b)
  {
    if b == 144 { assert TableAt(144) == TableEntry(144); }
    else if b == 145 { assert TableAt(145) == TableEntry(145); }
    else if b == 146 { assert TableAt(146) == TableEntry(146); }
    else if b == 147 { assert TableAt(147) == TableEntry(147); }
    else if b == 148 { assert TableAt(148) == TableEntry(148); }
    else if b == 149 { assert TableAt(149) == TableEntry(149); }
    else if b == 150 { assert TableAt(150) == TableEntry(150); }
    else { assert b == 151; assert TableAt(151) == TableEntry(151); }
  }

  lemma Slice19IsPolynomial(b: bv8)
    requires b >> 3 == 19
    ensures TableAt(b) == TableEntry(b)
  {
    if b == 152 { assert TableAt(152) == TableEntry(152); }
    else if b == 153 { assert TableAt(153) == TableEntry(153); }
    else if b == 154 { assert TableAt(154) == TableEntry(154); }
    else if b == 155 { assert TableAt(155) == TableEntry(155); }
    else if b == 156 { assert TableAt(156) == TableEntry(156); }
    else if b == 157 { assert TableAt(157) == TableEntry(157); }
    else if b == 158 { assert TableAt(158) == TableEntry(158); }
    else { assert b == 159; assert TableAt(159) == TableEntry(159); }
  }

  lemma Slice20IsPolynomial(b: bv8)
    requires b >> 3 == 20
    ensures TableAt(b) == TableEntry(b)
  {
    if b == 160 { assert TableAt(160) == TableEntry(160); }
    else if b == 161 { assert TableAt(161) == TableEntry(161); }
    else if b == 162 { assert TableAt(162) == TableEntry(162); }
    else if b == 163 { assert TableAt(163) == TableEntry(163); }
    else if b == 164 { assert TableAt(164) == TableEntry(164); }
    else if b == 165 { assert TableAt(165) == TableEntry(165); }
    else if b == 166 { assert TableAt(166) == TableEntry(166); }
    else { assert b == 167; assert TableAt(167) == TableEntry(167); }
  }

  lemma Slice21IsPolynomial(b: bv8)
    requires b >> 3 == 21
    ensures TableAt(b) == TableEntry(b)
  {
    if b == 168 { assert TableAt(168) == TableEntry(168); }
    else if b == 169 { assert TableAt(169) == TableEntry(169); }
    else if b == 170 { assert TableAt(170) == TableEntry(170); }
    else if b == 171 { assert TableAt(171) == TableEntry(171); }
    else if b == 172 { assert TableAt(172) == TableEntry(172); }
    else if b == 173 { assert TableAt(173) == TableEntry(173); }
    else if b == 174 { assert TableAt(174) == TableEntry(174); }
    else { assert b == 175; assert TableAt(175) == TableEntry(175); }
  }

  lemma Slice22IsPolynomial(b: bv8)
    requires b >> 3 == 22
    ensures TableAt(b) == TableEntry(b)
  {
    if b == 176 { assert TableAt(176) == TableEntry(176); }
    else if b == 177 { assert TableAt(177) == TableEntry(177); }
    else if b == 178 { assert TableAt(178) == TableEntry(178); }
    else if b == 179 { assert TableAt(179) == TableEntry(179); }
    else if b == 180 { assert TableAt(180) == TableEntry(180); }
    else if b == 181 { assert TableAt(181) == TableEntry(181); }
    else if b == 182 { assert TableAt(182) == TableEntry(182); }
    else { assert b == 183; assert TableAt(183) == TableEntry(183); }
  }

  lemma Slice23IsPolynomial(b: bv8)
    requires b >> 3 == 23
    ensures TableAt(b) == TableEntry(b)
  {
    if b == 184 { assert TableAt(184) == TableEntry(184); }
    else if b == 185 { assert TableAt(185) == TableEntry(185); }
    else if b == 186 { assert TableAt(186) == TableEntry(186); }
    else if b == 187 { assert TableAt(187) == TableEntry(187); }
    else if b == 188 { assert TableAt(188) == TableEntry(188); }
    else if b == 189 { assert TableAt(189) == TableEntry(189); }
    else if b == 190 { assert TableAt(190) == TableEntry(190); }
    else { assert b == 191; assert TableAt(191) == TableEntry(191); }
  }

  lemma Slice24IsPolynomial(b: bv8)
    requires b >> 3 == 24
    ensures TableAt(b) == TableEntry(b)
  {
    if b == 192 { assert TableAt(192) == TableEntry(192); }
    else if b == 193 { assert TableAt(193) == TableEntry(193); }
    else if b == 194 { assert TableAt(194) == TableEntry(194); }
    else if b == 195 { assert TableAt(195) == TableEntry(195); }
    else if b == 196 { assert TableAt(196) == TableEntry(196); }
    else if b == 197 { assert TableAt(197) == TableEntry(197); }
    else if b == 198 { assert TableAt(198) == TableEntry(198); }
    else { assert b == 199; assert TableAt(199) == TableEntry(199); }
  }

  lemma Slice25IsPolynomial(b: bv8)
    requires b >> 3 == 25
    ensures TableAt(b) == TableEntry(b)
  {
    if b == 200 { assert TableAt(200) == TableEntry(200); }
    else if b == 201 { assert TableAt(201) == TableEntry(201); }
    else if b == 202 { assert TableAt(202) == TableEntry(202); }
    else if b == 203 { assert TableAt(203) == TableEntry(203); }
    else if b == 204 { assert TableAt(204) == TableEntry(204); }
    else if b == 205 { assert TableAt(205) == TableEntry(205); }
    else if b == 206 { assert TableAt(206) == TableEntry(206); }
    else { assert b == 207; assert TableAt(207) == TableEntry(207); }
  }

  lemma Slice26IsPolynomial(b: bv8)
    requires b >> 3 == 26
    ensures TableAt(b) == TableEntry(b)
  {
    if b == 208 { assert TableAt(208) == TableEntry(208); }
    else if b == 209 { assert TableAt(209) == TableEntry(209); }
    else if b == 210 { assert TableAt(210) == TableEntry(210); }
    else if b == 211 { assert TableAt(211) == TableEntry(211); }
    else if b == 212 { assert TableAt(212) == TableEntry(212); }
    else if b == 213 { assert TableAt(213) == TableEntry(213); }
    else if b == 214 { assert TableAt(214) == TableEntry(214); }
    else { assert b == 215; assert TableAt(215) == TableEntry(215); }
  }

  lemma Slice27IsPolynomial(b: bv8)
    requires b >> 3 == 27
    ensures TableAt(b) == TableEntry(b)
  {
    if b == 216 { assert TableAt(216) == TableEntry(216); }
    else if b == 217 { assert TableAt(217) == TableEntry(217); }
    else if b == 218 { assert TableAt(218) == TableEntry(218); }
    else if b == 219 { assert TableAt(219) == TableEntry(219); }
    else if b == 220 { assert TableAt(220) == TableEntry(220); }
    else if b == 221 { assert TableAt(221) == TableEntry(221); }
    else if b == 222 { assert TableAt(222) == TableEntry(222); }
    else { assert b == 223; assert TableAt(223) == TableEntry(223); }
  }

  lemma Slice28IsPolynomial(b: bv8)
    requires b >> 3 == 28
    ensures TableAt(b) == TableEntry(b)
  {
    if b == 224 { assert TableAt(224) == TableEntry(224); }
    else if b == 225 { assert TableAt(225) == TableEntry(225); }
    else if b == 226 { assert TableAt(226) == TableEntry(226); }
    else if b == 227 { assert TableAt(227) == TableEntry(227); }
    else if b == 228 { assert TableAt(228) == TableEntry(228); }
    else if b == 229 { assert TableAt(229) == TableEntry(229); }
    else if b == 230 { assert TableAt(230) == TableEntry(230); }
    else { assert b == 231; assert TableAt(231) == TableEntry(231); }
  }

  lemma Slice29IsPolynomial(b: bv8)
    requires b >> 3 == 29
    ensures TableAt(b) == TableEntry(b)
  {
    if b == 232 { assert TableAt(232) == TableEntry(232); }
    else if b == 233 { assert TableAt(233) == TableEntry(233); }
    else if b == 234 { assert TableAt(234) == TableEntry(234); }
    else if b == 235 { assert TableAt(235) == TableEntry(235); }
    else if b == 236 { assert TableAt(236) == TableEntry(236); }
    else if b == 237 { assert TableAt(237) == TableEntry(237); }
    else if b == 238 { assert TableAt(238) == TableEntry(238); }
    else { assert b == 239; assert TableAt(239) == TableEntry(239); }
  }

  lemma Slice30IsPolynomial(b: bv8)
    requires b >> 3 == 30
    ensures TableAt(b) == TableEntry(b)
  {
    if b == 240 { assert TableAt(240) == TableEntry(240); }
    else if b == 241 { assert TableAt(241) == TableEntry(241); }
    else if b == 242 { assert TableAt(242) == TableEntry(242); }
    else if b == 243 { assert TableAt(243) == TableEntry(243); }
    else if b == 244 { assert TableAt(244) == TableEntry(244); }
    else if b == 245 { assert TableAt(245) == TableEntry(245); }
    else if b == 246 { assert TableAt(246) == TableEntry(246); }
    else { assert b == 247; assert TableAt(247) == TableEntry(247); }
  }

  lemma Slice31IsPolynomial(b: bv8)
    requires b >> 3 == 31
    ensures TableAt(b) == TableEntry(b)
  {
    if b == 248 { assert TableAt(248) == TableEntry(248); }
    else if b == 249 { assert TableAt(249) == TableEntry(249); }
    else if b == 250 { assert TableAt(250) == TableEntry(250); }
    else if b == 251 { assert TableAt(251) == TableEntry(251); }
    else if b == 252 { assert TableAt(252) == TableEntry(252); }
    else if b == 253 { assert TableAt(253) == TableEntry(253); }
    else if b == 254 { assert TableAt(254) == TableEntry(254); }
    else { assert b == 255; assert TableAt(255) == TableEntry(255); }
  }

  /** Every entry of the table is the bitwise remainder of its index: the
      table is the one for the polynomial 0x04C11DB7. */
  lemma TableAtIsPolynomial(b: bv8)
    ensures TableAt(b) == TableEntry(b)
  {
    if b >> 3 < 16 {
      if b >> 3 < 8 {
        if b >> 3 < 4 {
          if b >> 3 < 2 {
            if b >> 3 < 1 {
              Slice0IsPolynomial(b);
            } else {
              Slice1IsPolynomial(b);
            }
          } else {
            if b >> 3 < 3 {
              Slice2IsPolynomial(b);
            } else {
              Slice3IsPolynomial(b);
            }
          }
        } else {
          if b >> 3 < 6 {
            if b >> 3 < 5 {
              Slice4IsPolynomial(b);
            } else {
              Slice5IsPolynomial(b);
            }
          } else {
            if b >> 3 < 7 {
              Slice6IsPolynomial(b);
            } else {
              Slice7IsPolynomial(b);
            }
          }
        }
      } else {
        if b >> 3 < 12 {
          if b >> 3 < 10 {
            if b >> 3 < 9 {
              Slice8IsPolynomial(b);
            } else {
              Slice9IsPolynomial(b);
            }
          } else {
            if b >> 3 < 11 {
              Slice10IsPolynomial(b);
            } else {
              Slice11IsPolynomial(b);
            }
          }
        } else {
          if b >> 3 < 14 {
            if b >> 3 < 13 {
              Slice12IsPolynomial(b);
            } else {
              Slice13IsPolynomial(b);
            }
          } else {
            if b >> 3 < 15 {
              Slice14IsPolynomial(b);
            } else {
              Slice15IsPolynomial(b);
            }
          }
        }
      }
    } else {
      if b >> 3 < 24 {
        if b >> 3 < 20 {
          if b >> 3 < 18 {
            if b >> 3 < 17 {
              Slice16IsPolynomial(b);
            } else {
              Slice17IsPolynomial(b);
            }
          } else {
            if b >> 3 < 19 {
              Slice18IsPolynomial(b);
            } else {
              Slice19IsPolynomial(b);
            }
          }
        } else {
          if b >> 3 < 22 {
            if b >> 3 < 21 {
              Slice20IsPolynomial(b);
            } else {
              Slice21IsPolynomial(b);
            }
          } else {
            if b >> 3 < 23 {
              Slice22IsPolynomial(b);
            } else {
              Slice23IsPolynomial(b);
            }
          }
        }
      } else {
        if b >> 3 < 28 {
          if b >> 3 < 26 {
            if b >> 3 < 25 {
              Slice24IsPolynomial(b);
            } else {
              Slice25IsPolynomial(b);
            }
          } else {
            if b >> 3 < 27 {
              Slice26IsPolynomial(b);
            } else {
              Slice27IsPolynomial(b);
            }
          }
        } else {
          if b >> 3 < 30 {
            if b >> 3 < 29 {
              Slice28IsPolynomial(b);
            } else {
              Slice29IsPolynomial(b);
            }
          } else {
            if b >> 3 < 31 {
              Slice30IsPolynomial(b);
            } else {
              Slice31IsPolynomial(b);
            }
          }
        }
      }
    }
  }

  // ------------------------------------------------- the loop of make_hash

  /** `make_hash(str, size)`: the table driven loop computes the bitwise CRC. */
  method MakeHash(name: seq<bv8>) returns (digest: bv32)
    ensures digest == Crc(name)
  {
    digest := 0xFFFF_FFFF;
    var i := 0;
    while i < |name|
      invariant 0 <= i <= |name|
      invariant digest == Crc(name[..i])
    {
      var b := name[i];
      TableLoopStep(digest, b);
      CrcSnoc(name[..i], b);
      assert name[..i + 1] == name[..i] + [b];
      digest := (digest << 8) ^ TableAt((((digest >> 24) ^ (b as bv32)) & 0xFF) as bv8);
      i := i + 1;
    }
    assert name[..|name|] == name;
  }

  /** Appending a byte to the input feeds it into the register. */
  lemma CrcSnoc(bytes: seq<bv8>, b: bv8)
    ensures Crc(bytes + [b]) == Update(Crc(bytes), b)
  {
    assert (bytes + [b])[..|bytes|] == bytes;
  }

  /** One iteration of the loop of `make_hash` feeds one byte into the register. */
  lemma TableLoopStep(d: bv32, b: bv8)
    ensures (d << 8) ^ TableAt((((d >> 24) ^ (b as bv32)) & 0xFF) as bv8) == Update(d, b)
  {
    TableIndexStep(d, b, (((d >> 24) ^ (b as bv32)) & 0xFF) as bv8);
  }

  /** The same, with the index of the table named. */
  lemma TableIndexStep(d: bv32, b: bv8, index: bv8)
    requires index == (((d >> 24) ^ (b as bv32)) & 0xFF) as bv8
    ensures (d << 8) ^ TableAt(index) == Update(d, b)
  {
    TableAtIsPolynomial(index);
    TableStep(d, b);
  }
}
