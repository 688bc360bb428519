/** The lookup table of the CRC, row by row of sixteen, and the computation that
    every entry of it must agree with. */
module Crc64Table {

  /** The Jones polynomial, and the same with its bits reversed. */
  const JONES: bv64 := 0xad93d23594c935a9
  const POLY: bv64 := 0x95ac9329ac4bc9b5

  /** The bit positions, one by one. */
  predicate Position(i: bv64)
  {
    || i == 0 || i == 1 || i == 2 || i == 3 || i == 4 || i == 5 || i == 6 || i == 7
    || i == 8 || i == 9 || i == 10 || i == 11 || i == 12 || i == 13 || i == 14 || i == 15
    || i == 16 || i == 17 || i == 18 || i == 19 || i == 20 || i == 21 || i == 22 || i == 23
    || i == 24 || i == 25 || i == 26 || i == 27 || i == 28 || i == 29 || i == 30 || i == 31
    || i == 32 || i == 33 || i == 34 || i == 35 || i == 36 || i == 37 || i == 38 || i == 39
    || i == 40 || i == 41 || i == 42 || i == 43 || i == 44 || i == 45 || i == 46 || i == 47
    || i == 48 || i == 49 || i == 50 || i == 51 || i == 52 || i == 53 || i == 54 || i == 55
    || i == 56 || i == 57 || i == 58 || i == 59 || i == 60 || i == 61 || i == 62 || i == 63
  }

  /** `POLY` is `JONES` reflected. */
  lemma Reflected(i: bv64)
    requires i < 64
    ensures (JONES >> i) & 1 == (POLY >> (63 - i)) & 1
  {
    assert Position(i);
  }

  /** Feed one bit: shift right, and subtract the polynomial if a one fell out. */
  function OneBit(c: bv64): (r: bv64)
  {
    if c & 1 == 1 then (c >> 1) ^ POLY else c >> 1
  }

  function EightBits(c: bv64): (r: bv64)
  {
    OneBit(OneBit(OneBit(OneBit(OneBit(OneBit(OneBit(OneBit(c))))))))
  }

  function Row0(i: bv64): (r: bv64)
  {
    if i == 0 then 0x0000000000000000
    else if i == 1 then 0x7ad870c830358979
    else if i == 2 then 0xf5b0e190606b12f2
    else if i == 3 then 0x8f689158505e9b8b
    else if i == 4 then 0xc038e5739841b68f
    else if i == 5 then 0xbae095bba8743ff6
    else if i == 6 then 0x358804e3f82aa47d
    else if i == 7 then 0x4f50742bc81f2d04
    else if i == 8 then 0xab28ecb46814fe75
    else if i == 9 then 0xd1f09c7c5821770c
    else if i == 10 then 0x5e980d24087fec87
    else if i == 11 then 0x24407dec384a65fe
    else if i == 12 then 0x6b1009c7f05548fa
    else if i == 13 then 0x11c8790fc060c183
    else if i == 14 then 0x9ea0e857903e5a08
    else 0xe478989fa00bd371
  }

  function Row1(i: bv64): (r: bv64)
  {
    if i == 0 then 0x7d08ff3b88be6f81
    else if i == 1 then 0x07d08ff3b88be6f8
    else if i == 2 then 0x88b81eabe8d57d73
    else if i == 3 then 0xf2606e63d8e0f40a
    else if i == 4 then 0xbd301a4810ffd90e
    else if i == 5 then 0xc7e86a8020ca5077
    else if i == 6 then 0x4880fbd87094cbfc
    else if i == 7 then 0x32588b1040a14285
    else if i == 8 then 0xd620138fe0aa91f4
    else if i == 9 then 0xacf86347d09f188d
    else if i == 10 then 0x2390f21f80c18306
    else if i == 11 then 0x594882d7b0f40a7f
    else if i == 12 then 0x1618f6fc78eb277b
    else if i == 13 then 0x6cc0863448deae02
    else if i == 14 then 0xe3a8176c18803589
    else 0x997067a428b5bcf0
  }

  function Row2(i: bv64): (r: bv64)
  {
    if i == 0 then 0xfa11fe77117cdf02
    else if i == 1 then 0x80c98ebf2149567b
    else if i == 2 then 0x0fa11fe77117cdf0
    else if i == 3 then 0x75796f2f41224489
    else if i == 4 then 0x3a291b04893d698d
    else if i == 5 then 0x40f16bccb908e0f4
    else if i == 6 then 0xcf99fa94e9567b7f
    else if i == 7 then 0xb5418a5cd963f206
    else if i == 8 then 0x513912c379682177
    else if i == 9 then 0x2be1620b495da80e
    else if i == 10 then 0xa489f35319033385
    else if i == 11 then 0xde51839b2936bafc
    else if i == 12 then 0x9101f7b0e12997f8
    else if i == 13 then 0xebd98778d11c1e81
    else if i == 14 then 0x64b116208142850a
    else 0x1e6966e8b1770c73
  }

  function Row3(i: bv64): (r: bv64)
  {
    if i == 0 then 0x8719014c99c2b083
    else if i == 1 then 0xfdc17184a9f739fa
    else if i == 2 then 0x72a9e0dcf9a9a271
    else if i == 3 then 0x08719014c99c2b08
    else if i == 4 then 0x4721e43f0183060c
    else if i == 5 then 0x3df994f731b68f75
    else if i == 6 then 0xb29105af61e814fe
    else if i == 7 then 0xc849756751dd9d87
    else if i == 8 then 0x2c31edf8f1d64ef6
    else if i == 9 then 0x56e99d30c1e3c78f
    else if i == 10 then 0xd9810c6891bd5c04
    else if i == 11 then 0xa3597ca0a188d57d
    else if i == 12 then 0xec09088b6997f879
    else if i == 13 then 0x96d1784359a27100
    else if i == 14 then 0x19b9e91b09fcea8b
    else 0x636199d339c963f2
  }

  function Row4(i: bv64): (r: bv64)
  {
    if i == 0 then 0xdf7adabd7a6e2d6f
    else if i == 1 then 0xa5a2aa754a5ba416
    else if i == 2 then 0x2aca3b2d1a053f9d
    else if i == 3 then 0x50124be52a30b6e4
    else if i == 4 then 0x1f423fcee22f9be0
    else if i == 5 then 0x659a4f06d21a1299
    else if i == 6 then 0xeaf2de5e82448912
    else if i == 7 then 0x902aae96b271006b
    else if i == 8 then 0x74523609127ad31a
    else if i == 9 then 0x0e8a46c1224f5a63
    else if i == 10 then 0x81e2d7997211c1e8
    else if i == 11 then 0xfb3aa75142244891
    else if i == 12 then 0xb46ad37a8a3b6595
    else if i == 13 then 0xceb2a3b2ba0eecec
    else if i == 14 then 0x41da32eaea507767
    else 0x3b024222da65fe1e
  }

  function Row5(i: bv64): (r: bv64)
  {
    if i == 0 then 0xa2722586f2d042ee
    else if i == 1 then 0xd8aa554ec2e5cb97
    else if i == 2 then 0x57c2c41692bb501c
    else if i == 3 then 0x2d1ab4dea28ed965
    else if i == 4 then 0x624ac0f56a91f461
    else if i == 5 then 0x1892b03d5aa47d18
    else if i == 6 then 0x97fa21650afae693
    else if i == 7 then 0xed2251ad3acf6fea
    else if i == 8 then 0x095ac9329ac4bc9b
    else if i == 9 then 0x7382b9faaaf135e2
    else if i == 10 then 0xfcea28a2faafae69
    else if i == 11 then 0x8632586aca9a2710
    else if i == 12 then 0xc9622c4102850a14
    else if i == 13 then 0xb3ba5c8932b0836d
    else if i == 14 then 0x3cd2cdd162ee18e6
    else 0x460abd1952db919f
  }

  function Row6(i: bv64): (r: bv64)
  {
    if i == 0 then 0x256b24ca6b12f26d
    else if i == 1 then 0x5fb354025b277b14
    else if i == 2 then 0xd0dbc55a0b79e09f
    else if i == 3 then 0xaa03b5923b4c69e6
    else if i == 4 then 0xe553c1b9f35344e2
    else if i == 5 then 0x9f8bb171c366cd9b
    else if i == 6 then 0x10e3202993385610
    else if i == 7 then 0x6a3b50e1a30ddf69
    else if i == 8 then 0x8e43c87e03060c18
    else if i == 9 then 0xf49bb8b633338561
    else if i == 10 then 0x7bf329ee636d1eea
    else if i == 11 then 0x012b592653589793
    else if i == 12 then 0x4e7b2d0d9b47ba97
    else if i == 13 then 0x34a35dc5ab7233ee
    else if i == 14 then 0xbbcbcc9dfb2ca865
    else 0xc113bc55cb19211c
  }

  function Row7(i: bv64): (r: bv64)
  {
    if i == 0 then 0x5863dbf1e3ac9dec
    else if i == 1 then 0x22bbab39d3991495
    else if i == 2 then 0xadd33a6183c78f1e
    else if i == 3 then 0xd70b4aa9b3f20667
    else if i == 4 then 0x985b3e827bed2b63
    else if i == 5 then 0xe2834e4a4bd8a21a
    else if i == 6 then 0x6debdf121b863991
    else if i == 7 then 0x1733afda2bb3b0e8
    else if i == 8 then 0xf34b37458bb86399
    else if i == 9 then 0x8993478dbb8deae0
    else if i == 10 then 0x06fbd6d5ebd3716b
    else if i == 11 then 0x7c23a61ddbe6f812
    else if i == 12 then 0x3373d23613f9d516
    else if i == 13 then 0x49aba2fe23cc5c6f
    else if i == 14 then 0xc6c333a67392c7e4
    else 0xbc1b436e43a74e9d
  }

  function Row8(i: bv64): (r: bv64)
  {
    if i == 0 then 0x95ac9329ac4bc9b5
    else if i == 1 then 0xef74e3e19c7e40cc
    else if i == 2 then 0x601c72b9cc20db47
    else if i == 3 then 0x1ac40271fc15523e
    else if i == 4 then 0x5594765a340a7f3a
    else if i == 5 then 0x2f4c0692043ff643
    else if i == 6 then 0xa02497ca54616dc8
    else if i == 7 then 0xdafce7026454e4b1
    else if i == 8 then 0x3e847f9dc45f37c0
    else if i == 9 then 0x445c0f55f46abeb9
    else if i == 10 then 0xcb349e0da4342532
    else if i == 11 then 0xb1eceec59401ac4b
    else if i == 12 then 0xfebc9aee5c1e814f
    else if i == 13 then 0x8464ea266c2b0836
    else if i == 14 then 0x0b0c7b7e3c7593bd
    else 0x71d40bb60c401ac4
  }

  function Row9(i: bv64): (r: bv64)
  {
    if i == 0 then 0xe8a46c1224f5a634
    else if i == 1 then 0x927c1cda14c02f4d
    else if i == 2 then 0x1d148d82449eb4c6
    else if i == 3 then 0x67ccfd4a74ab3dbf
    else if i == 4 then 0x289c8961bcb410bb
    else if i == 5 then 0x5244f9a98c8199c2
    else if i == 6 then 0xdd2c68f1dcdf0249
    else if i == 7 then 0xa7f41839ecea8b30
    else if i == 8 then 0x438c80a64ce15841
    else if i == 9 then 0x3954f06e7cd4d138
    else if i == 10 then 0xb63c61362c8a4ab3
    else if i == 11 then 0xcce411fe1cbfc3ca
    else if i == 12 then 0x83b465d5d4a0eece
    else if i == 13 then 0xf96c151de49567b7
    else if i == 14 then 0x76048445b4cbfc3c
    else 0x0cdcf48d84fe7545
  }

  function RowA(i: bv64): (r: bv64)
  {
    if i == 0 then 0x6fbd6d5ebd3716b7
    else if i == 1 then 0x15651d968d029fce
    else if i == 2 then 0x9a0d8ccedd5c0445
    else if i == 3 then 0xe0d5fc06ed698d3c
    else if i == 4 then 0xaf85882d2576a038
    else if i == 5 then 0xd55df8e515432941
    else if i == 6 then 0x5a3569bd451db2ca
    else if i == 7 then 0x20ed197575283bb3
    else if i == 8 then 0xc49581ead523e8c2
    else if i == 9 then 0xbe4df122e51661bb
    else if i == 10 then 0x3125607ab548fa30
    else if i == 11 then 0x4bfd10b2857d7349
    else if i == 12 then 0x04ad64994d625e4d
    else if i == 13 then 0x7e7514517d57d734
    else if i == 14 then 0xf11d85092d094cbf
    else 0x8bc5f5c11d3cc5c6
  }

  function RowB(i: bv64): (r: bv64)
  {
    if i == 0 then 0x12b5926535897936
    else if i == 1 then 0x686de2ad05bcf04f
    else if i == 2 then 0xe70573f555e26bc4
    else if i == 3 then 0x9ddd033d65d7e2bd
    else if i == 4 then 0xd28d7716adc8cfb9
    else if i == 5 then 0xa85507de9dfd46c0
    else if i == 6 then 0x273d9686cda3dd4b
    else if i == 7 then 0x5de5e64efd965432
    else if i == 8 then 0xb99d7ed15d9d8743
    else if i == 9 then 0xc3450e196da80e3a
    else if i == 10 then 0x4c2d9f413df695b1
    else if i == 11 then 0x36f5ef890dc31cc8
    else if i == 12 then 0x79a59ba2c5dc31cc
    else if i == 13 then 0x037deb6af5e9b8b5
    else if i == 14 then 0x8c157a32a5b7233e
    else 0xf6cd0afa9582aa47
  }

  function RowC(i: bv64): (r: bv64)
  {
    if i == 0 then 0x4ad64994d625e4da
    else if i == 1 then 0x300e395ce6106da3
    else if i == 2 then 0xbf66a804b64ef628
    else if i == 3 then 0xc5bed8cc867b7f51
    else if i == 4 then 0x8aeeace74e645255
    else if i == 5 then 0xf036dc2f7e51db2c
    else if i == 6 then 0x7f5e4d772e0f40a7
    else if i == 7 then 0x05863dbf1e3ac9de
    else if i == 8 then 0xe1fea520be311aaf
    else if i == 9 then 0x9b26d5e88e0493d6
    else if i == 10 then 0x144e44b0de5a085d
    else if i == 11 then 0x6e963478ee6f8124
    else if i == 12 then 0x21c640532670ac20
    else if i == 13 then 0x5b1e309b16452559
    else if i == 14 then 0xd476a1c3461bbed2
    else 0xaeaed10b762e37ab
  }

  function RowD(i: bv64): (r: bv64)
  {
    if i == 0 then 0x37deb6af5e9b8b5b
    else if i == 1 then 0x4d06c6676eae0222
    else if i == 2 then 0xc26e573f3ef099a9
    else if i == 3 then 0xb8b627f70ec510d0
    else if i == 4 then 0xf7e653dcc6da3dd4
    else if i == 5 then 0x8d3e2314f6efb4ad
    else if i == 6 then 0x0256b24ca6b12f26
    else if i == 7 then 0x788ec2849684a65f
    else if i == 8 then 0x9cf65a1b368f752e
    else if i == 9 then 0xe62e2ad306bafc57
    else if i == 10 then 0x6946bb8b56e467dc
    else if i == 11 then 0x139ecb4366d1eea5
    else if i == 12 then 0x5ccebf68aecec3a1
    else if i == 13 then 0x2616cfa09efb4ad8
    else if i == 14 then 0xa97e5ef8cea5d153
    else 0xd3a62e30fe90582a
  }

  function RowE(i: bv64): (r: bv64)
  {
    if i == 0 then 0xb0c7b7e3c7593bd8
    else if i == 1 then 0xca1fc72bf76cb2a1
    else if i == 2 then 0x45775673a732292a
    else if i == 3 then 0x3faf26bb9707a053
    else if i == 4 then 0x70ff52905f188d57
    else if i == 5 then 0x0a2722586f2d042e
    else if i == 6 then 0x854fb3003f739fa5
    else if i == 7 then 0xff97c3c80f4616dc
    else if i == 8 then 0x1bef5b57af4dc5ad
    else if i == 9 then 0x61372b9f9f784cd4
    else if i == 10 then 0xee5fbac7cf26d75f
    else if i == 11 then 0x9487ca0fff135e26
    else if i == 12 then 0xdbd7be24370c7322
    else if i == 13 then 0xa10fceec0739fa5b
    else if i == 14 then 0x2e675fb4576761d0
    else 0x54bf2f7c6752e8a9
  }

  function RowF(i: bv64): (r: bv64)
  {
    if i == 0 then 0xcdcf48d84fe75459
    else if i == 1 then 0xb71738107fd2dd20
    else if i == 2 then 0x387fa9482f8c46ab
    else if i == 3 then 0x42a7d9801fb9cfd2
    else if i == 4 then 0x0df7adabd7a6e2d6
    else if i == 5 then 0x772fdd63e7936baf
    else if i == 6 then 0xf8474c3bb7cdf024
    else if i == 7 then 0x829f3cf387f8795d
    else if i == 8 then 0x66e7a46c27f3aa2c
    else if i == 9 then 0x1c3fd4a417c62355
    else if i == 10 then 0x935745fc4798b8de
    else if i == 11 then 0xe98f353477ad31a7
    else if i == 12 then 0xa6df411fbfb21ca3
    else if i == 13 then 0xdc0731d78f8795da
    else if i == 14 then 0x536fa08fdfd90e51
    else 0x29b7d047efec8728
  }

  /** `crc64_tab[i]` */
  function Table(i: bv64): (r: bv64)
    requires i < 256
  {
    if i >> 4 == 0 then Row0(i & 15)
    else if i >> 4 == 1 then Row1(i & 15)
    else if i >> 4 == 2 then Row2(i & 15)
    else if i >> 4 == 3 then Row3(i & 15)
    else if i >> 4 == 4 then Row4(i & 15)
    else if i >> 4 == 5 then Row5(i & 15)
    else if i >> 4 == 6 then Row6(i & 15)
    else if i >> 4 == 7 then Row7(i & 15)
    else if i >> 4 == 8 then Row8(i & 15)
    else if i >> 4 == 9 then Row9(i & 15)
    else if i >> 4 == 10 then RowA(i & 15)
    else if i >> 4 == 11 then RowB(i & 15)
    else if i >> 4 == 12 then RowC(i & 15)
    else if i >> 4 == 13 then RowD(i & 15)
    else if i >> 4 == 14 then RowE(i & 15)
    else RowF(i & 15)
  }

  /** The indices of a row, one by one. */
  predicate Nibble(i: bv64)
  {
    || i == 0 || i == 1 || i == 2 || i == 3 || i == 4 || i == 5 || i == 6 || i == 7
    || i == 8 || i == 9 || i == 10 || i == 11 || i == 12 || i == 13 || i == 14 || i == 15
  }

  lemma Row0Correct(i: bv64)
    requires i < 16
    ensures Row0(i) == EightBits(0 | i)
  {
    assert Nibble(i);
  }

  lemma Row1Correct(i: bv64)
    requires i < 16
    ensures Row1(i) == EightBits(16 | i)
  {
    assert Nibble(i);
  }

  lemma Row2Correct(i: bv64)
    requires i < 16
    ensures Row2(i) == EightBits(32 | i)
  {
    assert Nibble(i);
  }

  lemma Row3Correct(i: bv64)
    requires i < 16
    ensures Row3(i) == EightBits(48 | i)
  {
    assert Nibble(i);
  }

  lemma Row4Correct(i: bv64)
    requires i < 16
    ensures Row4(i) == EightBits(64 | i)
  {
    assert Nibble(i);
  }

  lemma Row5Correct(i: bv64)
    requires i < 16
    ensures Row5(i) == EightBits(80 | i)
  {
    assert Nibble(i);
  }

  lemma Row6Correct(i: bv64)
    requires i < 16
    ensures Row6(i) == EightBits(96 | i)
  {
    assert Nibble(i);
  }

  lemma Row7Correct(i: bv64)
    requires i < 16
    ensures Row7(i) == EightBits(112 | i)
  {
    assert Nibble(i);
  }

  lemma Row8Correct(i: bv64)
    requires i < 16
    ensures Row8(i) == EightBits(128 | i)
  {
    assert Nibble(i);
  }

  lemma Row9Correct(i: bv64)
    requires i < 16
    ensures Row9(i) == EightBits(144 | i)
  {
    assert Nibble(i);
  }

  lemma RowACorrect(i: bv64)
    requires i < 16
    ensures RowA(i) == EightBits(160 | i)
  {
    assert Nibble(i);
  }

  lemma RowBCorrect(i: bv64)
    requires i < 16
    ensures RowB(i) == EightBits(176 | i)
  {
    assert Nibble(i);
  }

  lemma RowCCorrect(i: bv64)
    requires i < 16
    ensures RowC(i) == EightBits(192 | i)
  {
    assert Nibble(i);
  }

  lemma RowDCorrect(i: bv64)
    requires i < 16
    ensures RowD(i) == EightBits(208 | i)
  {
    assert Nibble(i);
  }

  lemma RowECorrect(i: bv64)
    requires i < 16
    ensures RowE(i) == EightBits(224 | i)
  {
    assert Nibble(i);
  }

  lemma RowFCorrect(i: bv64)
    requires i < 16
    ensures RowF(i) == EightBits(240 | i)
  {
    assert Nibble(i);
  }

  /** Every entry of the table is what feeding its index bit by bit yields. */
  lemma TableCorrect(i: bv64)
    requires i < 256
    ensures Table(i) == EightBits(i)
  {
    hide EightBits, Row0, Row1, Row2, Row3, Row4, Row5, Row6, Row7, Row8, Row9, RowA, RowB, RowC, RowD, RowE, RowF;
    assert i == ((i >> 4) << 4) | (i & 15);
    if i >> 4 == 0 {
      Row0Correct(i & 15);
    } else if i >> 4 == 1 {
      Row1Correct(i & 15);
    } else if i >> 4 == 2 {
      Row2Correct(i & 15);
    } else if i >> 4 == 3 {
      Row3Correct(i & 15);
    } else if i >> 4 == 4 {
      Row4Correct(i & 15);
    } else if i >> 4 == 5 {
      Row5Correct(i & 15);
    } else if i >> 4 == 6 {
      Row6Correct(i & 15);
    } else if i >> 4 == 7 {
      Row7Correct(i & 15);
    } else if i >> 4 == 8 {
      Row8Correct(i & 15);
    } else if i >> 4 == 9 {
      Row9Correct(i & 15);
    } else if i >> 4 == 10 {
      RowACorrect(i & 15);
    } else if i >> 4 == 11 {
      RowBCorrect(i & 15);
    } else if i >> 4 == 12 {
      RowCCorrect(i & 15);
    } else if i >> 4 == 13 {
      RowDCorrect(i & 15);
    } else if i >> 4 == 14 {
      RowECorrect(i & 15);
    } else {
      assert i >> 4 == 15;
      RowFCorrect(i & 15);
    }
  }
}
