/**
 The round constants E8_bitslice_roundconstant (jh.c), as the four little-endian 64-bit words that
 the code reads each 32-byte row as; seven rows for each turn of its loop.
 */
module JhTable {
  function Word(j: nat, a: bv64, b: bv64, c: bv64, d: bv64): bv64 {
    if j == 0 then a else if j == 1 then b else if j == 2 then c else d
  }

  // Word `j` of row `r`.
  function RoundConstant(r: nat, j: nat): bv64
    requires r < 42 && j < 4
  {
    if r < 7 then Rows0(r, j)
    else if r < 14 then Rows7(r - 7, j)
    else if r < 21 then Rows14(r - 14, j)
    else if r < 28 then Rows21(r - 21, j)
    else if r < 35 then Rows28(r - 28, j)
    else Rows35(r - 35, j)
  }

  function Rows0(r: nat, j: nat): bv64
    requires r < 7 && j < 4
  {
    if r == 0 then Word(j, 0x67F815DFA2DED572, 0x571523B70A15847B, 0xF6875A4D90D6AB81, 0x402BD1C3C54F9F4E)
    else if r == 1 then Word(j, 0x9CFA455CE03A98EA, 0x9A99B26699D2C503, 0x8A53BBF2B4960266, 0x31A2DB881A1456B5)
    else if r == 2 then Word(j, 0xDB0E199A5C5AA303, 0x1044C1870AB23F40, 0x1D959E848019051C, 0xDCCDE75EADEB336F)
    else if r == 3 then Word(j, 0x416BBF029213BA10, 0xD027BBF7156578DC, 0x5078AA3739812C0A, 0xD3910041D2BF1A3F)
    else if r == 4 then Word(j, 0x907ECCF60D5A2D42, 0xCE97C0929C9F62DD, 0xAC442BC70BA75C18, 0x23FCC663D665DFD1)
    else if r == 5 then Word(j, 0x1AB8E09E036C6E97, 0xA8EC6C447E450521, 0xFA618E5DBB03F1EE, 0x97818394B29796FD)
    else Word(j, 0x2F3003DB37858E4A, 0x956A9FFB2D8D672A, 0x6C69B8F88173FE8A, 0x14427FC04672C78A)
  }

  function Rows7(r: nat, j: nat): bv64
    requires r < 7 && j < 4
  {
    if r == 0 then Word(j, 0xC45EC7BD8F15F4C5, 0x80BB118FA76F4475, 0xBC88E4AEB775DE52, 0xF4A3A6981E00B882)
    else if r == 1 then Word(j, 0x1563A3A9338FF48E, 0x89F9B7D524565FAA, 0xFDE05A7C20EDF1B6, 0x362C42065AE9CA36)
    else if r == 2 then Word(j, 0x3D98FE4E433529CE, 0xA74B9A7374F93A53, 0x86814E6F591FF5D0, 0x9F5AD8AF81AD9D0E)
    else if r == 3 then Word(j, 0x6A6234EE670605A7, 0x2717B96EBE280B8B, 0x3F1080C626077447, 0x7B487EC66F7EA0E0)
    else if r == 4 then Word(j, 0xC0A4F84AA50A550D, 0x9EF18E979FE7E391, 0xD48D605081727686, 0x62B0E5F3415A9E7E)
    else if r == 5 then Word(j, 0x7A205440EC1F9FFC, 0x84C9F4CE001AE4E3, 0xD895FA9DF594D74F, 0xA554C324117E2E55)
    else Word(j, 0x286EFEBD2872DF5B, 0xB2C4A50FE27FF578, 0x2ED349EEEF7C8905, 0x7F5928EB85937E44)
  }

  function Rows14(r: nat, j: nat): bv64
    requires r < 7 && j < 4
  {
    if r == 0 then Word(j, 0x4A3124B337695F70, 0x65E4D61DF128865E, 0xE720B95104771BC7, 0x8A87D423E843FE74)
    else if r == 1 then Word(j, 0xF2947692A3E8297D, 0xC1D9309B097ACBDD, 0xE01BDC5BFB301B1D, 0xBF829CF24F4924DA)
    else if r == 2 then Word(j, 0xFFBF70B431BAE7A4, 0x48BCF8DE0544320D, 0x39D3BB5332FCAE3B, 0xA08B29E0C1C39F45)
    else if r == 3 then Word(j, 0x0F09AEF7FD05C9E5, 0x34F1904212347094, 0x95ED44E301B771A2, 0x4A982F4F368E3BE9)
    else if r == 4 then Word(j, 0x15F66CA0631D4088, 0xFFAF52874B44C147, 0x30C60AE2F14ABB7E, 0xE68C6ECCC5B67046)
    else if r == 5 then Word(j, 0x00CA4FBD56A4D5A4, 0xAE183EC84B849DDA, 0xADD1643045CE5773, 0x67255C1468CEA6E8)
    else Word(j, 0x16E10ECBF28CDAA3, 0x9A99949A5806E933, 0x7B846FC220B2601F, 0x1885D1A07FACCED1)
  }

  function Rows21(r: nat, j: nat): bv64
    requires r < 7 && j < 4
  {
    if r == 0 then Word(j, 0xD319DD8DA15B5932, 0x46B4A5AAC01C9A50, 0xBA6B04E467633D9F, 0x7EEE560BAB19CAF6)
    else if r == 1 then Word(j, 0x742128A9EA79B11F, 0xEE51363B35F7BDE9, 0x76D350755AAC571D, 0x01707DA3FEC2463A)
    else if r == 2 then Word(j, 0x42D8A498AFC135F7, 0x79676B9E20ECED78, 0xA8DB3AEA15638341, 0x832C83324D3BC3FA)
    else if r == 3 then Word(j, 0xF347271C1F3B40A7, 0x9A762DB734F04059, 0xFD4F21D26C4E3EE7, 0xEF5957DC398DFDB8)
    else if r == 4 then Word(j, 0xDAEB492B490C9B8D, 0x0D70F36849D7A25B, 0x84558D7AD0AE3B7D, 0x658EF8E4F0E9A5F5)
    else if r == 5 then Word(j, 0x533B1036F4A2B8A0, 0x5AEC3E759E07A80C, 0x4F88E85692946891, 0x4CBCBAF8555CB05B)
    else Word(j, 0x7B9487F3993BBBE3, 0x5D1C6B72D6F4DA75, 0x6DB334DC28ACAE64, 0x71DB28B850A5346C)
  }

  function Rows28(r: nat, j: nat): bv64
    requires r < 7 && j < 4
  {
    if r == 0 then Word(j, 0x2A518D10F2E261F8, 0xFC75DD593364DBE3, 0xA23FCE43F1BCAC1C, 0xB043E8023CD1BB67)
    else if r == 1 then Word(j, 0x75A12988CA5B0A33, 0x5C5316B44D19347F, 0x1E4D790EC3943B92, 0x3FAFEEB6D7757479)
    else if r == 2 then Word(j, 0x21391ABEF7D4A8EA, 0x5127234C097EF45C, 0xD23C32BA5324A326, 0xADD5A66D4A17A344)
    else if r == 3 then Word(j, 0x08C9F2AFA63E1DB5, 0x563C6B91983D5983, 0x4D608672A17CF84C, 0xF6C76E08CC3EE246)
    else if r == 4 then Word(j, 0x5E76BCB1B333982F, 0x2AE6C4EFA566D62B, 0x36D4C1BEE8B6F406, 0x6321EFBC1582EE74)
    else if r == 5 then Word(j, 0x69C953F40D4EC1FD, 0x26585806C45A7DA7, 0x16FAE0061614C17E, 0x3F9D63283DAF907E)
    else Word(j, 0x0CD29B00E3F2C9D2, 0x300CD4B730CEAA5F, 0x9832E0F216512A74, 0x9AF8CEE3D830EB0D)
  }

  function Rows35(r: nat, j: nat): bv64
    requires r < 7 && j < 4
  {
    if r == 0 then Word(j, 0x9279F1B57B9EC54B, 0xD36886046EE651FF, 0x316796E6574D239B, 0x05750A17F3A6E6CC)
    else if r == 1 then Word(j, 0xCE6C3213D98176B1, 0x62A205F88452173C, 0x47154778B3CB2BF4, 0x486A9323825446FF)
    else if r == 2 then Word(j, 0x65655E4E0758DF38, 0x8E5086FC897CFCF2, 0x86CA0BD0442E7031, 0x4E477830A20940F0)
    else if r == 3 then Word(j, 0x8338F7D139EEA065, 0xBD3A2CE437E95EF7, 0x6FF8130126B29721, 0xE7DE9FEFD1ED44A3)
    else if r == 4 then Word(j, 0xD992257615DFA08B, 0xBE42DC12F6F7853C, 0x7EB027AB7CECA7D8, 0xDEA83EAADA7D8D53)
    else if r == 5 then Word(j, 0xD86902BD93CE25AA, 0xF908731AFD43F65A, 0xA5194A17DAEF5FC0, 0x6A21FD4C33664D97)
    else Word(j, 0x701541DB3198B435, 0x9B54CDEDBB0F1EEA, 0x72409751A163D09A, 0xE26F4791BF9D75F6)
  }
}
