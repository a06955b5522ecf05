/**
 The byte tables of oaes_lib.c, entry by entry, as decision trees over the index, and what they
 are: mutually inverse permutations and multiplications in GF(2^8) (section 4.2 of FIPS 197).
 */
module AesTables {
  import opened Words

  // oaes_sub_byte_value[b >> 4][b & 0xf]
  function SubByte(b: Byte): Byte {
    if b < 0x80 then if b < 0x40 then if b < 0x20 then if b < 0x10 then if b < 0x08 then if b < 0x04 then
      if b < 0x02 then if b < 0x01 then 0x63 else 0x7c else if b < 0x03 then 0x77 else 0x7b else if b < 0x06 then
      if b < 0x05 then 0xf2 else 0x6b else if b < 0x07 then 0x6f else 0xc5
    else if b < 0x0c then if b < 0x0a then if b < 0x09 then 0x30 else 0x01 else if b < 0x0b then 0x67 else 0x2b
      else if b < 0x0e then if b < 0x0d then 0xfe else 0xd7 else if b < 0x0f then 0xab else 0x76
    else if b < 0x18 then if b < 0x14 then if b < 0x12 then if b < 0x11 then 0xca else 0x82
      else if b < 0x13 then 0xc9 else 0x7d else if b < 0x16 then if b < 0x15 then 0xfa else 0x59
      else if b < 0x17 then 0x47 else 0xf0
    else if b < 0x1c then if b < 0x1a then if b < 0x19 then 0xad else 0xd4 else if b < 0x1b then 0xa2 else 0xaf
      else if b < 0x1e then if b < 0x1d then 0x9c else 0xa4 else if b < 0x1f then 0x72 else 0xc0
    else if b < 0x30 then if b < 0x28 then if b < 0x24 then if b < 0x22 then if b < 0x21 then 0xb7 else 0xfd
      else if b < 0x23 then 0x93 else 0x26 else if b < 0x26 then if b < 0x25 then 0x36 else 0x3f
      else if b < 0x27 then 0xf7 else 0xcc
    else if b < 0x2c then if b < 0x2a then if b < 0x29 then 0x34 else 0xa5 else if b < 0x2b then 0xe5 else 0xf1
      else if b < 0x2e then if b < 0x2d then 0x71 else 0xd8 else if b < 0x2f then 0x31 else 0x15
    else if b < 0x38 then if b < 0x34 then if b < 0x32 then if b < 0x31 then 0x04 else 0xc7
      else if b < 0x33 then 0x23 else 0xc3 else if b < 0x36 then if b < 0x35 then 0x18 else 0x96
      else if b < 0x37 then 0x05 else 0x9a
    else if b < 0x3c then if b < 0x3a then if b < 0x39 then 0x07 else 0x12 else if b < 0x3b then 0x80 else 0xe2
      else if b < 0x3e then if b < 0x3d then 0xeb else 0x27 else if b < 0x3f then 0xb2 else 0x75
    else if b < 0x60 then if b < 0x50 then if b < 0x48 then if b < 0x44 then if b < 0x42 then
      if b < 0x41 then 0x09 else 0x83 else if b < 0x43 then 0x2c else 0x1a else if b < 0x46 then
      if b < 0x45 then 0x1b else 0x6e else if b < 0x47 then 0x5a else 0xa0
    else if b < 0x4c then if b < 0x4a then if b < 0x49 then 0x52 else 0x3b else if b < 0x4b then 0xd6 else 0xb3
      else if b < 0x4e then if b < 0x4d then 0x29 else 0xe3 else if b < 0x4f then 0x2f else 0x84
    else if b < 0x58 then if b < 0x54 then if b < 0x52 then if b < 0x51 then 0x53 else 0xd1
      else if b < 0x53 then 0x00 else 0xed else if b < 0x56 then if b < 0x55 then 0x20 else 0xfc
      else if b < 0x57 then 0xb1 else 0x5b
    else if b < 0x5c then if b < 0x5a then if b < 0x59 then 0x6a else 0xcb else if b < 0x5b then 0xbe else 0x39
      else if b < 0x5e then if b < 0x5d then 0x4a else 0x4c else if b < 0x5f then 0x58 else 0xcf
    else if b < 0x70 then if b < 0x68 then if b < 0x64 then if b < 0x62 then if b < 0x61 then 0xd0 else 0xef
      else if b < 0x63 then 0xaa else 0xfb else if b < 0x66 then if b < 0x65 then 0x43 else 0x4d
      else if b < 0x67 then 0x33 else 0x85
    else if b < 0x6c then if b < 0x6a then if b < 0x69 then 0x45 else 0xf9 else if b < 0x6b then 0x02 else 0x7f
      else if b < 0x6e then if b < 0x6d then 0x50 else 0x3c else if b < 0x6f then 0x9f else 0xa8
    else if b < 0x78 then if b < 0x74 then if b < 0x72 then if b < 0x71 then 0x51 else 0xa3
      else if b < 0x73 then 0x40 else 0x8f else if b < 0x76 then if b < 0x75 then 0x92 else 0x9d
      else if b < 0x77 then 0x38 else 0xf5
    else if b < 0x7c then if b < 0x7a then if b < 0x79 then 0xbc else 0xb6 else if b < 0x7b then 0xda else 0x21
      else if b < 0x7e then if b < 0x7d then 0x10 else 0xff else if b < 0x7f then 0xf3 else 0xd2
    else if b < 0xc0 then if b < 0xa0 then if b < 0x90 then if b < 0x88 then if b < 0x84 then if b < 0x82 then
      if b < 0x81 then 0xcd else 0x0c else if b < 0x83 then 0x13 else 0xec else if b < 0x86 then
      if b < 0x85 then 0x5f else 0x97 else if b < 0x87 then 0x44 else 0x17
    else if b < 0x8c then if b < 0x8a then if b < 0x89 then 0xc4 else 0xa7 else if b < 0x8b then 0x7e else 0x3d
      else if b < 0x8e then if b < 0x8d then 0x64 else 0x5d else if b < 0x8f then 0x19 else 0x73
    else if b < 0x98 then if b < 0x94 then if b < 0x92 then if b < 0x91 then 0x60 else 0x81
      else if b < 0x93 then 0x4f else 0xdc else if b < 0x96 then if b < 0x95 then 0x22 else 0x2a
      else if b < 0x97 then 0x90 else 0x88
    else if b < 0x9c then if b < 0x9a then if b < 0x99 then 0x46 else 0xee else if b < 0x9b then 0xb8 else 0x14
      else if b < 0x9e then if b < 0x9d then 0xde else 0x5e else if b < 0x9f then 0x0b else 0xdb
    else if b < 0xb0 then if b < 0xa8 then if b < 0xa4 then if b < 0xa2 then if b < 0xa1 then 0xe0 else 0x32
      else if b < 0xa3 then 0x3a else 0x0a else if b < 0xa6 then if b < 0xa5 then 0x49 else 0x06
      else if b < 0xa7 then 0x24 else 0x5c
    else if b < 0xac then if b < 0xaa then if b < 0xa9 then 0xc2 else 0xd3 else if b < 0xab then 0xac else 0x62
      else if b < 0xae then if b < 0xad then 0x91 else 0x95 else if b < 0xaf then 0xe4 else 0x79
    else if b < 0xb8 then if b < 0xb4 then if b < 0xb2 then if b < 0xb1 then 0xe7 else 0xc8
      else if b < 0xb3 then 0x37 else 0x6d else if b < 0xb6 then if b < 0xb5 then 0x8d else 0xd5
      else if b < 0xb7 then 0x4e else 0xa9
    else if b < 0xbc then if b < 0xba then if b < 0xb9 then 0x6c else 0x56 else if b < 0xbb then 0xf4 else 0xea
      else if b < 0xbe then if b < 0xbd then 0x65 else 0x7a else if b < 0xbf then 0xae else 0x08
    else if b < 0xe0 then if b < 0xd0 then if b < 0xc8 then if b < 0xc4 then if b < 0xc2 then
      if b < 0xc1 then 0xba else 0x78 else if b < 0xc3 then 0x25 else 0x2e else if b < 0xc6 then
      if b < 0xc5 then 0x1c else 0xa6 else if b < 0xc7 then 0xb4 else 0xc6
    else if b < 0xcc then if b < 0xca then if b < 0xc9 then 0xe8 else 0xdd else if b < 0xcb then 0x74 else 0x1f
      else if b < 0xce then if b < 0xcd then 0x4b else 0xbd else if b < 0xcf then 0x8b else 0x8a
    else if b < 0xd8 then if b < 0xd4 then if b < 0xd2 then if b < 0xd1 then 0x70 else 0x3e
      else if b < 0xd3 then 0xb5 else 0x66 else if b < 0xd6 then if b < 0xd5 then 0x48 else 0x03
      else if b < 0xd7 then 0xf6 else 0x0e
    else if b < 0xdc then if b < 0xda then if b < 0xd9 then 0x61 else 0x35 else if b < 0xdb then 0x57 else 0xb9
      else if b < 0xde then if b < 0xdd then 0x86 else 0xc1 else if b < 0xdf then 0x1d else 0x9e
    else if b < 0xf0 then if b < 0xe8 then if b < 0xe4 then if b < 0xe2 then if b < 0xe1 then 0xe1 else 0xf8
      else if b < 0xe3 then 0x98 else 0x11 else if b < 0xe6 then if b < 0xe5 then 0x69 else 0xd9
      else if b < 0xe7 then 0x8e else 0x94
    else if b < 0xec then if b < 0xea then if b < 0xe9 then 0x9b else 0x1e else if b < 0xeb then 0x87 else 0xe9
      else if b < 0xee then if b < 0xed then 0xce else 0x55 else if b < 0xef then 0x28 else 0xdf
    else if b < 0xf8 then if b < 0xf4 then if b < 0xf2 then if b < 0xf1 then 0x8c else 0xa1
      else if b < 0xf3 then 0x89 else 0x0d else if b < 0xf6 then if b < 0xf5 then 0xbf else 0xe6
      else if b < 0xf7 then 0x42 else 0x68
    else if b < 0xfc then if b < 0xfa then if b < 0xf9 then 0x41 else 0x99 else if b < 0xfb then 0x2d else 0x0f
      else if b < 0xfe then if b < 0xfd then 0xb0 else 0x54 else if b < 0xff then 0xbb else 0x16
  }

  // oaes_inv_sub_byte_value[b >> 4][b & 0xf]
  function InvSubByte(b: Byte): Byte {
    if b < 0x80 then if b < 0x40 then if b < 0x20 then if b < 0x10 then if b < 0x08 then if b < 0x04 then
      if b < 0x02 then if b < 0x01 then 0x52 else 0x09 else if b < 0x03 then 0x6a else 0xd5 else if b < 0x06 then
      if b < 0x05 then 0x30 else 0x36 else if b < 0x07 then 0xa5 else 0x38
    else if b < 0x0c then if b < 0x0a then if b < 0x09 then 0xbf else 0x40 else if b < 0x0b then 0xa3 else 0x9e
      else if b < 0x0e then if b < 0x0d then 0x81 else 0xf3 else if b < 0x0f then 0xd7 else 0xfb
    else if b < 0x18 then if b < 0x14 then if b < 0x12 then if b < 0x11 then 0x7c else 0xe3
      else if b < 0x13 then 0x39 else 0x82 else if b < 0x16 then if b < 0x15 then 0x9b else 0x2f
      else if b < 0x17 then 0xff else 0x87
    else if b < 0x1c then if b < 0x1a then if b < 0x19 then 0x34 else 0x8e else if b < 0x1b then 0x43 else 0x44
      else if b < 0x1e then if b < 0x1d then 0xc4 else 0xde else if b < 0x1f then 0xe9 else 0xcb
    else if b < 0x30 then if b < 0x28 then if b < 0x24 then if b < 0x22 then if b < 0x21 then 0x54 else 0x7b
      else if b < 0x23 then 0x94 else 0x32 else if b < 0x26 then if b < 0x25 then 0xa6 else 0xc2
      else if b < 0x27 then 0x23 else 0x3d
    else if b < 0x2c then if b < 0x2a then if b < 0x29 then 0xee else 0x4c else if b < 0x2b then 0x95 else 0x0b
      else if b < 0x2e then if b < 0x2d then 0x42 else 0xfa else if b < 0x2f then 0xc3 else 0x4e
    else if b < 0x38 then if b < 0x34 then if b < 0x32 then if b < 0x31 then 0x08 else 0x2e
      else if b < 0x33 then 0xa1 else 0x66 else if b < 0x36 then if b < 0x35 then 0x28 else 0xd9
      else if b < 0x37 then 0x24 else 0xb2
    else if b < 0x3c then if b < 0x3a then if b < 0x39 then 0x76 else 0x5b else if b < 0x3b then 0xa2 else 0x49
      else if b < 0x3e then if b < 0x3d then 0x6d else 0x8b else if b < 0x3f then 0xd1 else 0x25
    else if b < 0x60 then if b < 0x50 then if b < 0x48 then if b < 0x44 then if b < 0x42 then
      if b < 0x41 then 0x72 else 0xf8 else if b < 0x43 then 0xf6 else 0x64 else if b < 0x46 then
      if b < 0x45 then 0x86 else 0x68 else if b < 0x47 then 0x98 else 0x16
    else if b < 0x4c then if b < 0x4a then if b < 0x49 then 0xd4 else 0xa4 else if b < 0x4b then 0x5c else 0xcc
      else if b < 0x4e then if b < 0x4d then 0x5d else 0x65 else if b < 0x4f then 0xb6 else 0x92
    else if b < 0x58 then if b < 0x54 then if b < 0x52 then if b < 0x51 then 0x6c else 0x70
      else if b < 0x53 then 0x48 else 0x50 else if b < 0x56 then if b < 0x55 then 0xfd else 0xed
      else if b < 0x57 then 0xb9 else 0xda
    else if b < 0x5c then if b < 0x5a then if b < 0x59 then 0x5e else 0x15 else if b < 0x5b then 0x46 else 0x57
      else if b < 0x5e then if b < 0x5d then 0xa7 else 0x8d else if b < 0x5f then 0x9d else 0x84
    else if b < 0x70 then if b < 0x68 then if b < 0x64 then if b < 0x62 then if b < 0x61 then 0x90 else 0xd8
      else if b < 0x63 then 0xab else 0x00 else if b < 0x66 then if b < 0x65 then 0x8c else 0xbc
      else if b < 0x67 then 0xd3 else 0x0a
    else if b < 0x6c then if b < 0x6a then if b < 0x69 then 0xf7 else 0xe4 else if b < 0x6b then 0x58 else 0x05
      else if b < 0x6e then if b < 0x6d then 0xb8 else 0xb3 else if b < 0x6f then 0x45 else 0x06
    else if b < 0x78 then if b < 0x74 then if b < 0x72 then if b < 0x71 then 0xd0 else 0x2c
      else if b < 0x73 then 0x1e else 0x8f else if b < 0x76 then if b < 0x75 then 0xca else 0x3f
      else if b < 0x77 then 0x0f else 0x02
    else if b < 0x7c then if b < 0x7a then if b < 0x79 then 0xc1 else 0xaf else if b < 0x7b then 0xbd else 0x03
      else if b < 0x7e then if b < 0x7d then 0x01 else 0x13 else if b < 0x7f then 0x8a else 0x6b
    else if b < 0xc0 then if b < 0xa0 then if b < 0x90 then if b < 0x88 then if b < 0x84 then if b < 0x82 then
      if b < 0x81 then 0x3a else 0x91 else if b < 0x83 then 0x11 else 0x41 else if b < 0x86 then
      if b < 0x85 then 0x4f else 0x67 else if b < 0x87 then 0xdc else 0xea
    else if b < 0x8c then if b < 0x8a then if b < 0x89 then 0x97 else 0xf2 else if b < 0x8b then 0xcf else 0xce
      else if b < 0x8e then if b < 0x8d then 0xf0 else 0xb4 else if b < 0x8f then 0xe6 else 0x73
    else if b < 0x98 then if b < 0x94 then if b < 0x92 then if b < 0x91 then 0x96 else 0xac
      else if b < 0x93 then 0x74 else 0x22 else if b < 0x96 then if b < 0x95 then 0xe7 else 0xad
      else if b < 0x97 then 0x35 else 0x85
    else if b < 0x9c then if b < 0x9a then if b < 0x99 then 0xe2 else 0xf9 else if b < 0x9b then 0x37 else 0xe8
      else if b < 0x9e then if b < 0x9d then 0x1c else 0x75 else if b < 0x9f then 0xdf else 0x6e
    else if b < 0xb0 then if b < 0xa8 then if b < 0xa4 then if b < 0xa2 then if b < 0xa1 then 0x47 else 0xf1
      else if b < 0xa3 then 0x1a else 0x71 else if b < 0xa6 then if b < 0xa5 then 0x1d else 0x29
      else if b < 0xa7 then 0xc5 else 0x89
    else if b < 0xac then if b < 0xaa then if b < 0xa9 then 0x6f else 0xb7 else if b < 0xab then 0x62 else 0x0e
      else if b < 0xae then if b < 0xad then 0xaa else 0x18 else if b < 0xaf then 0xbe else 0x1b
    else if b < 0xb8 then if b < 0xb4 then if b < 0xb2 then if b < 0xb1 then 0xfc else 0x56
      else if b < 0xb3 then 0x3e else 0x4b else if b < 0xb6 then if b < 0xb5 then 0xc6 else 0xd2
      else if b < 0xb7 then 0x79 else 0x20
    else if b < 0xbc then if b < 0xba then if b < 0xb9 then 0x9a else 0xdb else if b < 0xbb then 0xc0 else 0xfe
      else if b < 0xbe then if b < 0xbd then 0x78 else 0xcd else if b < 0xbf then 0x5a else 0xf4
    else if b < 0xe0 then if b < 0xd0 then if b < 0xc8 then if b < 0xc4 then if b < 0xc2 then
      if b < 0xc1 then 0x1f else 0xdd else if b < 0xc3 then 0xa8 else 0x33 else if b < 0xc6 then
      if b < 0xc5 then 0x88 else 0x07 else if b < 0xc7 then 0xc7 else 0x31
    else if b < 0xcc then if b < 0xca then if b < 0xc9 then 0xb1 else 0x12 else if b < 0xcb then 0x10 else 0x59
      else if b < 0xce then if b < 0xcd then 0x27 else 0x80 else if b < 0xcf then 0xec else 0x5f
    else if b < 0xd8 then if b < 0xd4 then if b < 0xd2 then if b < 0xd1 then 0x60 else 0x51
      else if b < 0xd3 then 0x7f else 0xa9 else if b < 0xd6 then if b < 0xd5 then 0x19 else 0xb5
      else if b < 0xd7 then 0x4a else 0x0d
    else if b < 0xdc then if b < 0xda then if b < 0xd9 then 0x2d else 0xe5 else if b < 0xdb then 0x7a else 0x9f
      else if b < 0xde then if b < 0xdd then 0x93 else 0xc9 else if b < 0xdf then 0x9c else 0xef
    else if b < 0xf0 then if b < 0xe8 then if b < 0xe4 then if b < 0xe2 then if b < 0xe1 then 0xa0 else 0xe0
      else if b < 0xe3 then 0x3b else 0x4d else if b < 0xe6 then if b < 0xe5 then 0xae else 0x2a
      else if b < 0xe7 then 0xf5 else 0xb0
    else if b < 0xec then if b < 0xea then if b < 0xe9 then 0xc8 else 0xeb else if b < 0xeb then 0xbb else 0x3c
      else if b < 0xee then if b < 0xed then 0x83 else 0x53 else if b < 0xef then 0x99 else 0x61
    else if b < 0xf8 then if b < 0xf4 then if b < 0xf2 then if b < 0xf1 then 0x17 else 0x2b
      else if b < 0xf3 then 0x04 else 0x7e else if b < 0xf6 then if b < 0xf5 then 0xba else 0x77
      else if b < 0xf7 then 0xd6 else 0x26
    else if b < 0xfc then if b < 0xfa then if b < 0xf9 then 0xe1 else 0x69 else if b < 0xfb then 0x14 else 0x63
      else if b < 0xfe then if b < 0xfd then 0x55 else 0x21 else if b < 0xff then 0x0c else 0x7d
  }

  // oaes_gf_mul_2[b >> 4][b & 0xf]
  function GfMul2(b: Byte): Byte {
    if b < 0x80 then if b < 0x40 then if b < 0x20 then if b < 0x10 then if b < 0x08 then if b < 0x04 then
      if b < 0x02 then if b < 0x01 then 0x00 else 0x02 else if b < 0x03 then 0x04 else 0x06 else if b < 0x06 then
      if b < 0x05 then 0x08 else 0x0a else if b < 0x07 then 0x0c else 0x0e
    else if b < 0x0c then if b < 0x0a then if b < 0x09 then 0x10 else 0x12 else if b < 0x0b then 0x14 else 0x16
      else if b < 0x0e then if b < 0x0d then 0x18 else 0x1a else if b < 0x0f then 0x1c else 0x1e
    else if b < 0x18 then if b < 0x14 then if b < 0x12 then if b < 0x11 then 0x20 else 0x22
      else if b < 0x13 then 0x24 else 0x26 else if b < 0x16 then if b < 0x15 then 0x28 else 0x2a
      else if b < 0x17 then 0x2c else 0x2e
    else if b < 0x1c then if b < 0x1a then if b < 0x19 then 0x30 else 0x32 else if b < 0x1b then 0x34 else 0x36
      else if b < 0x1e then if b < 0x1d then 0x38 else 0x3a else if b < 0x1f then 0x3c else 0x3e
    else if b < 0x30 then if b < 0x28 then if b < 0x24 then if b < 0x22 then if b < 0x21 then 0x40 else 0x42
      else if b < 0x23 then 0x44 else 0x46 else if b < 0x26 then if b < 0x25 then 0x48 else 0x4a
      else if b < 0x27 then 0x4c else 0x4e
    else if b < 0x2c then if b < 0x2a then if b < 0x29 then 0x50 else 0x52 else if b < 0x2b then 0x54 else 0x56
      else if b < 0x2e then if b < 0x2d then 0x58 else 0x5a else if b < 0x2f then 0x5c else 0x5e
    else if b < 0x38 then if b < 0x34 then if b < 0x32 then if b < 0x31 then 0x60 else 0x62
      else if b < 0x33 then 0x64 else 0x66 else if b < 0x36 then if b < 0x35 then 0x68 else 0x6a
      else if b < 0x37 then 0x6c else 0x6e
    else if b < 0x3c then if b < 0x3a then if b < 0x39 then 0x70 else 0x72 else if b < 0x3b then 0x74 else 0x76
      else if b < 0x3e then if b < 0x3d then 0x78 else 0x7a else if b < 0x3f then 0x7c else 0x7e
    else if b < 0x60 then if b < 0x50 then if b < 0x48 then if b < 0x44 then if b < 0x42 then
      if b < 0x41 then 0x80 else 0x82 else if b < 0x43 then 0x84 else 0x86 else if b < 0x46 then
      if b < 0x45 then 0x88 else 0x8a else if b < 0x47 then 0x8c else 0x8e
    else if b < 0x4c then if b < 0x4a then if b < 0x49 then 0x90 else 0x92 else if b < 0x4b then 0x94 else 0x96
      else if b < 0x4e then if b < 0x4d then 0x98 else 0x9a else if b < 0x4f then 0x9c else 0x9e
    else if b < 0x58 then if b < 0x54 then if b < 0x52 then if b < 0x51 then 0xa0 else 0xa2
      else if b < 0x53 then 0xa4 else 0xa6 else if b < 0x56 then if b < 0x55 then 0xa8 else 0xaa
      else if b < 0x57 then 0xac else 0xae
    else if b < 0x5c then if b < 0x5a then if b < 0x59 then 0xb0 else 0xb2 else if b < 0x5b then 0xb4 else 0xb6
      else if b < 0x5e then if b < 0x5d then 0xb8 else 0xba else if b < 0x5f then 0xbc else 0xbe
    else if b < 0x70 then if b < 0x68 then if b < 0x64 then if b < 0x62 then if b < 0x61 then 0xc0 else 0xc2
      else if b < 0x63 then 0xc4 else 0xc6 else if b < 0x66 then if b < 0x65 then 0xc8 else 0xca
      else if b < 0x67 then 0xcc else 0xce
    else if b < 0x6c then if b < 0x6a then if b < 0x69 then 0xd0 else 0xd2 else if b < 0x6b then 0xd4 else 0xd6
      else if b < 0x6e then if b < 0x6d then 0xd8 else 0xda else if b < 0x6f then 0xdc else 0xde
    else if b < 0x78 then if b < 0x74 then if b < 0x72 then if b < 0x71 then 0xe0 else 0xe2
      else if b < 0x73 then 0xe4 else 0xe6 else if b < 0x76 then if b < 0x75 then 0xe8 else 0xea
      else if b < 0x77 then 0xec else 0xee
    else if b < 0x7c then if b < 0x7a then if b < 0x79 then 0xf0 else 0xf2 else if b < 0x7b then 0xf4 else 0xf6
      else if b < 0x7e then if b < 0x7d then 0xf8 else 0xfa else if b < 0x7f then 0xfc else 0xfe
    else if b < 0xc0 then if b < 0xa0 then if b < 0x90 then if b < 0x88 then if b < 0x84 then if b < 0x82 then
      if b < 0x81 then 0x1b else 0x19 else if b < 0x83 then 0x1f else 0x1d else if b < 0x86 then
      if b < 0x85 then 0x13 else 0x11 else if b < 0x87 then 0x17 else 0x15
    else if b < 0x8c then if b < 0x8a then if b < 0x89 then 0x0b else 0x09 else if b < 0x8b then 0x0f else 0x0d
      else if b < 0x8e then if b < 0x8d then 0x03 else 0x01 else if b < 0x8f then 0x07 else 0x05
    else if b < 0x98 then if b < 0x94 then if b < 0x92 then if b < 0x91 then 0x3b else 0x39
      else if b < 0x93 then 0x3f else 0x3d else if b < 0x96 then if b < 0x95 then 0x33 else 0x31
      else if b < 0x97 then 0x37 else 0x35
    else if b < 0x9c then if b < 0x9a then if b < 0x99 then 0x2b else 0x29 else if b < 0x9b then 0x2f else 0x2d
      else if b < 0x9e then if b < 0x9d then 0x23 else 0x21 else if b < 0x9f then 0x27 else 0x25
    else if b < 0xb0 then if b < 0xa8 then if b < 0xa4 then if b < 0xa2 then if b < 0xa1 then 0x5b else 0x59
      else if b < 0xa3 then 0x5f else 0x5d else if b < 0xa6 then if b < 0xa5 then 0x53 else 0x51
      else if b < 0xa7 then 0x57 else 0x55
    else if b < 0xac then if b < 0xaa then if b < 0xa9 then 0x4b else 0x49 else if b < 0xab then 0x4f else 0x4d
      else if b < 0xae then if b < 0xad then 0x43 else 0x41 else if b < 0xaf then 0x47 else 0x45
    else if b < 0xb8 then if b < 0xb4 then if b < 0xb2 then if b < 0xb1 then 0x7b else 0x79
      else if b < 0xb3 then 0x7f else 0x7d else if b < 0xb6 then if b < 0xb5 then 0x73 else 0x71
      else if b < 0xb7 then 0x77 else 0x75
    else if b < 0xbc then if b < 0xba then if b < 0xb9 then 0x6b else 0x69 else if b < 0xbb then 0x6f else 0x6d
      else if b < 0xbe then if b < 0xbd then 0x63 else 0x61 else if b < 0xbf then 0x67 else 0x65
    else if b < 0xe0 then if b < 0xd0 then if b < 0xc8 then if b < 0xc4 then if b < 0xc2 then
      if b < 0xc1 then 0x9b else 0x99 else if b < 0xc3 then 0x9f else 0x9d else if b < 0xc6 then
      if b < 0xc5 then 0x93 else 0x91 else if b < 0xc7 then 0x97 else 0x95
    else if b < 0xcc then if b < 0xca then if b < 0xc9 then 0x8b else 0x89 else if b < 0xcb then 0x8f else 0x8d
      else if b < 0xce then if b < 0xcd then 0x83 else 0x81 else if b < 0xcf then 0x87 else 0x85
    else if b < 0xd8 then if b < 0xd4 then if b < 0xd2 then if b < 0xd1 then 0xbb else 0xb9
      else if b < 0xd3 then 0xbf else 0xbd else if b < 0xd6 then if b < 0xd5 then 0xb3 else 0xb1
      else if b < 0xd7 then 0xb7 else 0xb5
    else if b < 0xdc then if b < 0xda then if b < 0xd9 then 0xab else 0xa9 else if b < 0xdb then 0xaf else 0xad
      else if b < 0xde then if b < 0xdd then 0xa3 else 0xa1 else if b < 0xdf then 0xa7 else 0xa5
    else if b < 0xf0 then if b < 0xe8 then if b < 0xe4 then if b < 0xe2 then if b < 0xe1 then 0xdb else 0xd9
      else if b < 0xe3 then 0xdf else 0xdd else if b < 0xe6 then if b < 0xe5 then 0xd3 else 0xd1
      else if b < 0xe7 then 0xd7 else 0xd5
    else if b < 0xec then if b < 0xea then if b < 0xe9 then 0xcb else 0xc9 else if b < 0xeb then 0xcf else 0xcd
      else if b < 0xee then if b < 0xed then 0xc3 else 0xc1 else if b < 0xef then 0xc7 else 0xc5
    else if b < 0xf8 then if b < 0xf4 then if b < 0xf2 then if b < 0xf1 then 0xfb else 0xf9
      else if b < 0xf3 then 0xff else 0xfd else if b < 0xf6 then if b < 0xf5 then 0xf3 else 0xf1
      else if b < 0xf7 then 0xf7 else 0xf5
    else if b < 0xfc then if b < 0xfa then if b < 0xf9 then 0xeb else 0xe9 else if b < 0xfb then 0xef else 0xed
      else if b < 0xfe then if b < 0xfd then 0xe3 else 0xe1 else if b < 0xff then 0xe7 else 0xe5
  }

  // oaes_gf_mul_3[b >> 4][b & 0xf]
  function GfMul3(b: Byte): Byte {
    if b < 0x80 then if b < 0x40 then if b < 0x20 then if b < 0x10 then if b < 0x08 then if b < 0x04 then
      if b < 0x02 then if b < 0x01 then 0x00 else 0x03 else if b < 0x03 then 0x06 else 0x05 else if b < 0x06 then
      if b < 0x05 then 0x0c else 0x0f else if b < 0x07 then 0x0a else 0x09
    else if b < 0x0c then if b < 0x0a then if b < 0x09 then 0x18 else 0x1b else if b < 0x0b then 0x1e else 0x1d
      else if b < 0x0e then if b < 0x0d then 0x14 else 0x17 else if b < 0x0f then 0x12 else 0x11
    else if b < 0x18 then if b < 0x14 then if b < 0x12 then if b < 0x11 then 0x30 else 0x33
      else if b < 0x13 then 0x36 else 0x35 else if b < 0x16 then if b < 0x15 then 0x3c else 0x3f
      else if b < 0x17 then 0x3a else 0x39
    else if b < 0x1c then if b < 0x1a then if b < 0x19 then 0x28 else 0x2b else if b < 0x1b then 0x2e else 0x2d
      else if b < 0x1e then if b < 0x1d then 0x24 else 0x27 else if b < 0x1f then 0x22 else 0x21
    else if b < 0x30 then if b < 0x28 then if b < 0x24 then if b < 0x22 then if b < 0x21 then 0x60 else 0x63
      else if b < 0x23 then 0x66 else 0x65 else if b < 0x26 then if b < 0x25 then 0x6c else 0x6f
      else if b < 0x27 then 0x6a else 0x69
    else if b < 0x2c then if b < 0x2a then if b < 0x29 then 0x78 else 0x7b else if b < 0x2b then 0x7e else 0x7d
      else if b < 0x2e then if b < 0x2d then 0x74 else 0x77 else if b < 0x2f then 0x72 else 0x71
    else if b < 0x38 then if b < 0x34 then if b < 0x32 then if b < 0x31 then 0x50 else 0x53
      else if b < 0x33 then 0x56 else 0x55 else if b < 0x36 then if b < 0x35 then 0x5c else 0x5f
      else if b < 0x37 then 0x5a else 0x59
    else if b < 0x3c then if b < 0x3a then if b < 0x39 then 0x48 else 0x4b else if b < 0x3b then 0x4e else 0x4d
      else if b < 0x3e then if b < 0x3d then 0x44 else 0x47 else if b < 0x3f then 0x42 else 0x41
    else if b < 0x60 then if b < 0x50 then if b < 0x48 then if b < 0x44 then if b < 0x42 then
      if b < 0x41 then 0xc0 else 0xc3 else if b < 0x43 then 0xc6 else 0xc5 else if b < 0x46 then
      if b < 0x45 then 0xcc else 0xcf else if b < 0x47 then 0xca else 0xc9
    else if b < 0x4c then if b < 0x4a then if b < 0x49 then 0xd8 else 0xdb else if b < 0x4b then 0xde else 0xdd
      else if b < 0x4e then if b < 0x4d then 0xd4 else 0xd7 else if b < 0x4f then 0xd2 else 0xd1
    else if b < 0x58 then if b < 0x54 then if b < 0x52 then if b < 0x51 then 0xf0 else 0xf3
      else if b < 0x53 then 0xf6 else 0xf5 else if b < 0x56 then if b < 0x55 then 0xfc else 0xff
      else if b < 0x57 then 0xfa else 0xf9
    else if b < 0x5c then if b < 0x5a then if b < 0x59 then 0xe8 else 0xeb else if b < 0x5b then 0xee else 0xed
      else if b < 0x5e then if b < 0x5d then 0xe4 else 0xe7 else if b < 0x5f then 0xe2 else 0xe1
    else if b < 0x70 then if b < 0x68 then if b < 0x64 then if b < 0x62 then if b < 0x61 then 0xa0 else 0xa3
      else if b < 0x63 then 0xa6 else 0xa5 else if b < 0x66 then if b < 0x65 then 0xac else 0xaf
      else if b < 0x67 then 0xaa else 0xa9
    else if b < 0x6c then if b < 0x6a then if b < 0x69 then 0xb8 else 0xbb else if b < 0x6b then 0xbe else 0xbd
      else if b < 0x6e then if b < 0x6d then 0xb4 else 0xb7 else if b < 0x6f then 0xb2 else 0xb1
    else if b < 0x78 then if b < 0x74 then if b < 0x72 then if b < 0x71 then 0x90 else 0x93
      else if b < 0x73 then 0x96 else 0x95 else if b < 0x76 then if b < 0x75 then 0x9c else 0x9f
      else if b < 0x77 then 0x9a else 0x99
    else if b < 0x7c then if b < 0x7a then if b < 0x79 then 0x88 else 0x8b else if b < 0x7b then 0x8e else 0x8d
      else if b < 0x7e then if b < 0x7d then 0x84 else 0x87 else if b < 0x7f then 0x82 else 0x81
    else if b < 0xc0 then if b < 0xa0 then if b < 0x90 then if b < 0x88 then if b < 0x84 then if b < 0x82 then
      if b < 0x81 then 0x9b else 0x98 else if b < 0x83 then 0x9d else 0x9e else if b < 0x86 then
      if b < 0x85 then 0x97 else 0x94 else if b < 0x87 then 0x91 else 0x92
    else if b < 0x8c then if b < 0x8a then if b < 0x89 then 0x83 else 0x80 else if b < 0x8b then 0x85 else 0x86
      else if b < 0x8e then if b < 0x8d then 0x8f else 0x8c else if b < 0x8f then 0x89 else 0x8a
    else if b < 0x98 then if b < 0x94 then if b < 0x92 then if b < 0x91 then 0xab else 0xa8
      else if b < 0x93 then 0xad else 0xae else if b < 0x96 then if b < 0x95 then 0xa7 else 0xa4
      else if b < 0x97 then 0xa1 else 0xa2
    else if b < 0x9c then if b < 0x9a then if b < 0x99 then 0xb3 else 0xb0 else if b < 0x9b then 0xb5 else 0xb6
      else if b < 0x9e then if b < 0x9d then 0xbf else 0xbc else if b < 0x9f then 0xb9 else 0xba
    else if b < 0xb0 then if b < 0xa8 then if b < 0xa4 then if b < 0xa2 then if b < 0xa1 then 0xfb else 0xf8
      else if b < 0xa3 then 0xfd else 0xfe else if b < 0xa6 then if b < 0xa5 then 0xf7 else 0xf4
      else if b < 0xa7 then 0xf1 else 0xf2
    else if b < 0xac then if b < 0xaa then if b < 0xa9 then 0xe3 else 0xe0 else if b < 0xab then 0xe5 else 0xe6
      else if b < 0xae then if b < 0xad then 0xef else 0xec else if b < 0xaf then 0xe9 else 0xea
    else if b < 0xb8 then if b < 0xb4 then if b < 0xb2 then if b < 0xb1 then 0xcb else 0xc8
      else if b < 0xb3 then 0xcd else 0xce else if b < 0xb6 then if b < 0xb5 then 0xc7 else 0xc4
      else if b < 0xb7 then 0xc1 else 0xc2
    else if b < 0xbc then if b < 0xba then if b < 0xb9 then 0xd3 else 0xd0 else if b < 0xbb then 0xd5 else 0xd6
      else if b < 0xbe then if b < 0xbd then 0xdf else 0xdc else if b < 0xbf then 0xd9 else 0xda
    else if b < 0xe0 then if b < 0xd0 then if b < 0xc8 then if b < 0xc4 then if b < 0xc2 then
      if b < 0xc1 then 0x5b else 0x58 else if b < 0xc3 then 0x5d else 0x5e else if b < 0xc6 then
      if b < 0xc5 then 0x57 else 0x54 else if b < 0xc7 then 0x51 else 0x52
    else if b < 0xcc then if b < 0xca then if b < 0xc9 then 0x43 else 0x40 else if b < 0xcb then 0x45 else 0x46
      else if b < 0xce then if b < 0xcd then 0x4f else 0x4c else if b < 0xcf then 0x49 else 0x4a
    else if b < 0xd8 then if b < 0xd4 then if b < 0xd2 then if b < 0xd1 then 0x6b else 0x68
      else if b < 0xd3 then 0x6d else 0x6e else if b < 0xd6 then if b < 0xd5 then 0x67 else 0x64
      else if b < 0xd7 then 0x61 else 0x62
    else if b < 0xdc then if b < 0xda then if b < 0xd9 then 0x73 else 0x70 else if b < 0xdb then 0x75 else 0x76
      else if b < 0xde then if b < 0xdd then 0x7f else 0x7c else if b < 0xdf then 0x79 else 0x7a
    else if b < 0xf0 then if b < 0xe8 then if b < 0xe4 then if b < 0xe2 then if b < 0xe1 then 0x3b else 0x38
      else if b < 0xe3 then 0x3d else 0x3e else if b < 0xe6 then if b < 0xe5 then 0x37 else 0x34
      else if b < 0xe7 then 0x31 else 0x32
    else if b < 0xec then if b < 0xea then if b < 0xe9 then 0x23 else 0x20 else if b < 0xeb then 0x25 else 0x26
      else if b < 0xee then if b < 0xed then 0x2f else 0x2c else if b < 0xef then 0x29 else 0x2a
    else if b < 0xf8 then if b < 0xf4 then if b < 0xf2 then if b < 0xf1 then 0x0b else 0x08
      else if b < 0xf3 then 0x0d else 0x0e else if b < 0xf6 then if b < 0xf5 then 0x07 else 0x04
      else if b < 0xf7 then 0x01 else 0x02
    else if b < 0xfc then if b < 0xfa then if b < 0xf9 then 0x13 else 0x10 else if b < 0xfb then 0x15 else 0x16
      else if b < 0xfe then if b < 0xfd then 0x1f else 0x1c else if b < 0xff then 0x19 else 0x1a
  }

  // oaes_gf_mul_9[b >> 4][b & 0xf]
  function GfMul9(b: Byte): Byte {
    if b < 0x80 then if b < 0x40 then if b < 0x20 then if b < 0x10 then if b < 0x08 then if b < 0x04 then
      if b < 0x02 then if b < 0x01 then 0x00 else 0x09 else if b < 0x03 then 0x12 else 0x1b else if b < 0x06 then
      if b < 0x05 then 0x24 else 0x2d else if b < 0x07 then 0x36 else 0x3f
    else if b < 0x0c then if b < 0x0a then if b < 0x09 then 0x48 else 0x41 else if b < 0x0b then 0x5a else 0x53
      else if b < 0x0e then if b < 0x0d then 0x6c else 0x65 else if b < 0x0f then 0x7e else 0x77
    else if b < 0x18 then if b < 0x14 then if b < 0x12 then if b < 0x11 then 0x90 else 0x99
      else if b < 0x13 then 0x82 else 0x8b else if b < 0x16 then if b < 0x15 then 0xb4 else 0xbd
      else if b < 0x17 then 0xa6 else 0xaf
    else if b < 0x1c then if b < 0x1a then if b < 0x19 then 0xd8 else 0xd1 else if b < 0x1b then 0xca else 0xc3
      else if b < 0x1e then if b < 0x1d then 0xfc else 0xf5 else if b < 0x1f then 0xee else 0xe7
    else if b < 0x30 then if b < 0x28 then if b < 0x24 then if b < 0x22 then if b < 0x21 then 0x3b else 0x32
      else if b < 0x23 then 0x29 else 0x20 else if b < 0x26 then if b < 0x25 then 0x1f else 0x16
      else if b < 0x27 then 0x0d else 0x04
    else if b < 0x2c then if b < 0x2a then if b < 0x29 then 0x73 else 0x7a else if b < 0x2b then 0x61 else 0x68
      else if b < 0x2e then if b < 0x2d then 0x57 else 0x5e else if b < 0x2f then 0x45 else 0x4c
    else if b < 0x38 then if b < 0x34 then if b < 0x32 then if b < 0x31 then 0xab else 0xa2
      else if b < 0x33 then 0xb9 else 0xb0 else if b < 0x36 then if b < 0x35 then 0x8f else 0x86
      else if b < 0x37 then 0x9d else 0x94
    else if b < 0x3c then if b < 0x3a then if b < 0x39 then 0xe3 else 0xea else if b < 0x3b then 0xf1 else 0xf8
      else if b < 0x3e then if b < 0x3d then 0xc7 else 0xce else if b < 0x3f then 0xd5 else 0xdc
    else if b < 0x60 then if b < 0x50 then if b < 0x48 then if b < 0x44 then if b < 0x42 then
      if b < 0x41 then 0x76 else 0x7f else if b < 0x43 then 0x64 else 0x6d else if b < 0x46 then
      if b < 0x45 then 0x52 else 0x5b else if b < 0x47 then 0x40 else 0x49
    else if b < 0x4c then if b < 0x4a then if b < 0x49 then 0x3e else 0x37 else if b < 0x4b then 0x2c else 0x25
      else if b < 0x4e then if b < 0x4d then 0x1a else 0x13 else if b < 0x4f then 0x08 else 0x01
    else if b < 0x58 then if b < 0x54 then if b < 0x52 then if b < 0x51 then 0xe6 else 0xef
      else if b < 0x53 then 0xf4 else 0xfd else if b < 0x56 then if b < 0x55 then 0xc2 else 0xcb
      else if b < 0x57 then 0xd0 else 0xd9
    else if b < 0x5c then if b < 0x5a then if b < 0x59 then 0xae else 0xa7 else if b < 0x5b then 0xbc else 0xb5
      else if b < 0x5e then if b < 0x5d then 0x8a else 0x83 else if b < 0x5f then 0x98 else 0x91
    else if b < 0x70 then if b < 0x68 then if b < 0x64 then if b < 0x62 then if b < 0x61 then 0x4d else 0x44
      else if b < 0x63 then 0x5f else 0x56 else if b < 0x66 then if b < 0x65 then 0x69 else 0x60
      else if b < 0x67 then 0x7b else 0x72
    else if b < 0x6c then if b < 0x6a then if b < 0x69 then 0x05 else 0x0c else if b < 0x6b then 0x17 else 0x1e
      else if b < 0x6e then if b < 0x6d then 0x21 else 0x28 else if b < 0x6f then 0x33 else 0x3a
    else if b < 0x78 then if b < 0x74 then if b < 0x72 then if b < 0x71 then 0xdd else 0xd4
      else if b < 0x73 then 0xcf else 0xc6 else if b < 0x76 then if b < 0x75 then 0xf9 else 0xf0
      else if b < 0x77 then 0xeb else 0xe2
    else if b < 0x7c then if b < 0x7a then if b < 0x79 then 0x95 else 0x9c else if b < 0x7b then 0x87 else 0x8e
      else if b < 0x7e then if b < 0x7d then 0xb1 else 0xb8 else if b < 0x7f then 0xa3 else 0xaa
    else if b < 0xc0 then if b < 0xa0 then if b < 0x90 then if b < 0x88 then if b < 0x84 then if b < 0x82 then
      if b < 0x81 then 0xec else 0xe5 else if b < 0x83 then 0xfe else 0xf7 else if b < 0x86 then
      if b < 0x85 then 0xc8 else 0xc1 else if b < 0x87 then 0xda else 0xd3
    else if b < 0x8c then if b < 0x8a then if b < 0x89 then 0xa4 else 0xad else if b < 0x8b then 0xb6 else 0xbf
      else if b < 0x8e then if b < 0x8d then 0x80 else 0x89 else if b < 0x8f then 0x92 else 0x9b
    else if b < 0x98 then if b < 0x94 then if b < 0x92 then if b < 0x91 then 0x7c else 0x75
      else if b < 0x93 then 0x6e else 0x67 else if b < 0x96 then if b < 0x95 then 0x58 else 0x51
      else if b < 0x97 then 0x4a else 0x43
    else if b < 0x9c then if b < 0x9a then if b < 0x99 then 0x34 else 0x3d else if b < 0x9b then 0x26 else 0x2f
      else if b < 0x9e then if b < 0x9d then 0x10 else 0x19 else if b < 0x9f then 0x02 else 0x0b
    else if b < 0xb0 then if b < 0xa8 then if b < 0xa4 then if b < 0xa2 then if b < 0xa1 then 0xd7 else 0xde
      else if b < 0xa3 then 0xc5 else 0xcc else if b < 0xa6 then if b < 0xa5 then 0xf3 else 0xfa
      else if b < 0xa7 then 0xe1 else 0xe8
    else if b < 0xac then if b < 0xaa then if b < 0xa9 then 0x9f else 0x96 else if b < 0xab then 0x8d else 0x84
      else if b < 0xae then if b < 0xad then 0xbb else 0xb2 else if b < 0xaf then 0xa9 else 0xa0
    else if b < 0xb8 then if b < 0xb4 then if b < 0xb2 then if b < 0xb1 then 0x47 else 0x4e
      else if b < 0xb3 then 0x55 else 0x5c else if b < 0xb6 then if b < 0xb5 then 0x63 else 0x6a
      else if b < 0xb7 then 0x71 else 0x78
    else if b < 0xbc then if b < 0xba then if b < 0xb9 then 0x0f else 0x06 else if b < 0xbb then 0x1d else 0x14
      else if b < 0xbe then if b < 0xbd then 0x2b else 0x22 else if b < 0xbf then 0x39 else 0x30
    else if b < 0xe0 then if b < 0xd0 then if b < 0xc8 then if b < 0xc4 then if b < 0xc2 then
      if b < 0xc1 then 0x9a else 0x93 else if b < 0xc3 then 0x88 else 0x81 else if b < 0xc6 then
      if b < 0xc5 then 0xbe else 0xb7 else if b < 0xc7 then 0xac else 0xa5
    else if b < 0xcc then if b < 0xca then if b < 0xc9 then 0xd2 else 0xdb else if b < 0xcb then 0xc0 else 0xc9
      else if b < 0xce then if b < 0xcd then 0xf6 else 0xff else if b < 0xcf then 0xe4 else 0xed
    else if b < 0xd8 then if b < 0xd4 then if b < 0xd2 then if b < 0xd1 then 0x0a else 0x03
      else if b < 0xd3 then 0x18 else 0x11 else if b < 0xd6 then if b < 0xd5 then 0x2e else 0x27
      else if b < 0xd7 then 0x3c else 0x35
    else if b < 0xdc then if b < 0xda then if b < 0xd9 then 0x42 else 0x4b else if b < 0xdb then 0x50 else 0x59
      else if b < 0xde then if b < 0xdd then 0x66 else 0x6f else if b < 0xdf then 0x74 else 0x7d
    else if b < 0xf0 then if b < 0xe8 then if b < 0xe4 then if b < 0xe2 then if b < 0xe1 then 0xa1 else 0xa8
      else if b < 0xe3 then 0xb3 else 0xba else if b < 0xe6 then if b < 0xe5 then 0x85 else 0x8c
      else if b < 0xe7 then 0x97 else 0x9e
    else if b < 0xec then if b < 0xea then if b < 0xe9 then 0xe9 else 0xe0 else if b < 0xeb then 0xfb else 0xf2
      else if b < 0xee then if b < 0xed then 0xcd else 0xc4 else if b < 0xef then 0xdf else 0xd6
    else if b < 0xf8 then if b < 0xf4 then if b < 0xf2 then if b < 0xf1 then 0x31 else 0x38
      else if b < 0xf3 then 0x23 else 0x2a else if b < 0xf6 then if b < 0xf5 then 0x15 else 0x1c
      else if b < 0xf7 then 0x07 else 0x0e
    else if b < 0xfc then if b < 0xfa then if b < 0xf9 then 0x79 else 0x70 else if b < 0xfb then 0x6b else 0x62
      else if b < 0xfe then if b < 0xfd then 0x5d else 0x54 else if b < 0xff then 0x4f else 0x46
  }

  // oaes_gf_mul_b[b >> 4][b & 0xf]
  function GfMulB(b: Byte): Byte {
    if b < 0x80 then if b < 0x40 then if b < 0x20 then if b < 0x10 then if b < 0x08 then if b < 0x04 then
      if b < 0x02 then if b < 0x01 then 0x00 else 0x0b else if b < 0x03 then 0x16 else 0x1d else if b < 0x06 then
      if b < 0x05 then 0x2c else 0x27 else if b < 0x07 then 0x3a else 0x31
    else if b < 0x0c then if b < 0x0a then if b < 0x09 then 0x58 else 0x53 else if b < 0x0b then 0x4e else 0x45
      else if b < 0x0e then if b < 0x0d then 0x74 else 0x7f else if b < 0x0f then 0x62 else 0x69
    else if b < 0x18 then if b < 0x14 then if b < 0x12 then if b < 0x11 then 0xb0 else 0xbb
      else if b < 0x13 then 0xa6 else 0xad else if b < 0x16 then if b < 0x15 then 0x9c else 0x97
      else if b < 0x17 then 0x8a else 0x81
    else if b < 0x1c then if b < 0x1a then if b < 0x19 then 0xe8 else 0xe3 else if b < 0x1b then 0xfe else 0xf5
      else if b < 0x1e then if b < 0x1d then 0xc4 else 0xcf else if b < 0x1f then 0xd2 else 0xd9
    else if b < 0x30 then if b < 0x28 then if b < 0x24 then if b < 0x22 then if b < 0x21 then 0x7b else 0x70
      else if b < 0x23 then 0x6d else 0x66 else if b < 0x26 then if b < 0x25 then 0x57 else 0x5c
      else if b < 0x27 then 0x41 else 0x4a
    else if b < 0x2c then if b < 0x2a then if b < 0x29 then 0x23 else 0x28 else if b < 0x2b then 0x35 else 0x3e
      else if b < 0x2e then if b < 0x2d then 0x0f else 0x04 else if b < 0x2f then 0x19 else 0x12
    else if b < 0x38 then if b < 0x34 then if b < 0x32 then if b < 0x31 then 0xcb else 0xc0
      else if b < 0x33 then 0xdd else 0xd6 else if b < 0x36 then if b < 0x35 then 0xe7 else 0xec
      else if b < 0x37 then 0xf1 else 0xfa
    else if b < 0x3c then if b < 0x3a then if b < 0x39 then 0x93 else 0x98 else if b < 0x3b then 0x85 else 0x8e
      else if b < 0x3e then if b < 0x3d then 0xbf else 0xb4 else if b < 0x3f then 0xa9 else 0xa2
    else if b < 0x60 then if b < 0x50 then if b < 0x48 then if b < 0x44 then if b < 0x42 then
      if b < 0x41 then 0xf6 else 0xfd else if b < 0x43 then 0xe0 else 0xeb else if b < 0x46 then
      if b < 0x45 then 0xda else 0xd1 else if b < 0x47 then 0xcc else 0xc7
    else if b < 0x4c then if b < 0x4a then if b < 0x49 then 0xae else 0xa5 else if b < 0x4b then 0xb8 else 0xb3
      else if b < 0x4e then if b < 0x4d then 0x82 else 0x89 else if b < 0x4f then 0x94 else 0x9f
    else if b < 0x58 then if b < 0x54 then if b < 0x52 then if b < 0x51 then 0x46 else 0x4d
      else if b < 0x53 then 0x50 else 0x5b else if b < 0x56 then if b < 0x55 then 0x6a else 0x61
      else if b < 0x57 then 0x7c else 0x77
    else if b < 0x5c then if b < 0x5a then if b < 0x59 then 0x1e else 0x15 else if b < 0x5b then 0x08 else 0x03
      else if b < 0x5e then if b < 0x5d then 0x32 else 0x39 else if b < 0x5f then 0x24 else 0x2f
    else if b < 0x70 then if b < 0x68 then if b < 0x64 then if b < 0x62 then if b < 0x61 then 0x8d else 0x86
      else if b < 0x63 then 0x9b else 0x90 else if b < 0x66 then if b < 0x65 then 0xa1 else 0xaa
      else if b < 0x67 then 0xb7 else 0xbc
    else if b < 0x6c then if b < 0x6a then if b < 0x69 then 0xd5 else 0xde else if b < 0x6b then 0xc3 else 0xc8
      else if b < 0x6e then if b < 0x6d then 0xf9 else 0xf2 else if b < 0x6f then 0xef else 0xe4
    else if b < 0x78 then if b < 0x74 then if b < 0x72 then if b < 0x71 then 0x3d else 0x36
      else if b < 0x73 then 0x2b else 0x20 else if b < 0x76 then if b < 0x75 then 0x11 else 0x1a
      else if b < 0x77 then 0x07 else 0x0c
    else if b < 0x7c then if b < 0x7a then if b < 0x79 then 0x65 else 0x6e else if b < 0x7b then 0x73 else 0x78
      else if b < 0x7e then if b < 0x7d then 0x49 else 0x42 else if b < 0x7f then 0x5f else 0x54
    else if b < 0xc0 then if b < 0xa0 then if b < 0x90 then if b < 0x88 then if b < 0x84 then if b < 0x82 then
      if b < 0x81 then 0xf7 else 0xfc else if b < 0x83 then 0xe1 else 0xea else if b < 0x86 then
      if b < 0x85 then 0xdb else 0xd0 else if b < 0x87 then 0xcd else 0xc6
    else if b < 0x8c then if b < 0x8a then if b < 0x89 then 0xaf else 0xa4 else if b < 0x8b then 0xb9 else 0xb2
      else if b < 0x8e then if b < 0x8d then 0x83 else 0x88 else if b < 0x8f then 0x95 else 0x9e
    else if b < 0x98 then if b < 0x94 then if b < 0x92 then if b < 0x91 then 0x47 else 0x4c
      else if b < 0x93 then 0x51 else 0x5a else if b < 0x96 then if b < 0x95 then 0x6b else 0x60
      else if b < 0x97 then 0x7d else 0x76
    else if b < 0x9c then if b < 0x9a then if b < 0x99 then 0x1f else 0x14 else if b < 0x9b then 0x09 else 0x02
      else if b < 0x9e then if b < 0x9d then 0x33 else 0x38 else if b < 0x9f then 0x25 else 0x2e
    else if b < 0xb0 then if b < 0xa8 then if b < 0xa4 then if b < 0xa2 then if b < 0xa1 then 0x8c else 0x87
      else if b < 0xa3 then 0x9a else 0x91 else if b < 0xa6 then if b < 0xa5 then 0xa0 else 0xab
      else if b < 0xa7 then 0xb6 else 0xbd
    else if b < 0xac then if b < 0xaa then if b < 0xa9 then 0xd4 else 0xdf else if b < 0xab then 0xc2 else 0xc9
      else if b < 0xae then if b < 0xad then 0xf8 else 0xf3 else if b < 0xaf then 0xee else 0xe5
    else if b < 0xb8 then if b < 0xb4 then if b < 0xb2 then if b < 0xb1 then 0x3c else 0x37
      else if b < 0xb3 then 0x2a else 0x21 else if b < 0xb6 then if b < 0xb5 then 0x10 else 0x1b
      else if b < 0xb7 then 0x06 else 0x0d
    else if b < 0xbc then if b < 0xba then if b < 0xb9 then 0x64 else 0x6f else if b < 0xbb then 0x72 else 0x79
      else if b < 0xbe then if b < 0xbd then 0x48 else 0x43 else if b < 0xbf then 0x5e else 0x55
    else if b < 0xe0 then if b < 0xd0 then if b < 0xc8 then if b < 0xc4 then if b < 0xc2 then
      if b < 0xc1 then 0x01 else 0x0a else if b < 0xc3 then 0x17 else 0x1c else if b < 0xc6 then
      if b < 0xc5 then 0x2d else 0x26 else if b < 0xc7 then 0x3b else 0x30
    else if b < 0xcc then if b < 0xca then if b < 0xc9 then 0x59 else 0x52 else if b < 0xcb then 0x4f else 0x44
      else if b < 0xce then if b < 0xcd then 0x75 else 0x7e else if b < 0xcf then 0x63 else 0x68
    else if b < 0xd8 then if b < 0xd4 then if b < 0xd2 then if b < 0xd1 then 0xb1 else 0xba
      else if b < 0xd3 then 0xa7 else 0xac else if b < 0xd6 then if b < 0xd5 then 0x9d else 0x96
      else if b < 0xd7 then 0x8b else 0x80
    else if b < 0xdc then if b < 0xda then if b < 0xd9 then 0xe9 else 0xe2 else if b < 0xdb then 0xff else 0xf4
      else if b < 0xde then if b < 0xdd then 0xc5 else 0xce else if b < 0xdf then 0xd3 else 0xd8
    else if b < 0xf0 then if b < 0xe8 then if b < 0xe4 then if b < 0xe2 then if b < 0xe1 then 0x7a else 0x71
      else if b < 0xe3 then 0x6c else 0x67 else if b < 0xe6 then if b < 0xe5 then 0x56 else 0x5d
      else if b < 0xe7 then 0x40 else 0x4b
    else if b < 0xec then if b < 0xea then if b < 0xe9 then 0x22 else 0x29 else if b < 0xeb then 0x34 else 0x3f
      else if b < 0xee then if b < 0xed then 0x0e else 0x05 else if b < 0xef then 0x18 else 0x13
    else if b < 0xf8 then if b < 0xf4 then if b < 0xf2 then if b < 0xf1 then 0xca else 0xc1
      else if b < 0xf3 then 0xdc else 0xd7 else if b < 0xf6 then if b < 0xf5 then 0xe6 else 0xed
      else if b < 0xf7 then 0xf0 else 0xfb
    else if b < 0xfc then if b < 0xfa then if b < 0xf9 then 0x92 else 0x99 else if b < 0xfb then 0x84 else 0x8f
      else if b < 0xfe then if b < 0xfd then 0xbe else 0xb5 else if b < 0xff then 0xa8 else 0xa3
  }

  // oaes_gf_mul_d[b >> 4][b & 0xf]
  function GfMulD(b: Byte): Byte {
    if b < 0x80 then if b < 0x40 then if b < 0x20 then if b < 0x10 then if b < 0x08 then if b < 0x04 then
      if b < 0x02 then if b < 0x01 then 0x00 else 0x0d else if b < 0x03 then 0x1a else 0x17 else if b < 0x06 then
      if b < 0x05 then 0x34 else 0x39 else if b < 0x07 then 0x2e else 0x23
    else if b < 0x0c then if b < 0x0a then if b < 0x09 then 0x68 else 0x65 else if b < 0x0b then 0x72 else 0x7f
      else if b < 0x0e then if b < 0x0d then 0x5c else 0x51 else if b < 0x0f then 0x46 else 0x4b
    else if b < 0x18 then if b < 0x14 then if b < 0x12 then if b < 0x11 then 0xd0 else 0xdd
      else if b < 0x13 then 0xca else 0xc7 else if b < 0x16 then if b < 0x15 then 0xe4 else 0xe9
      else if b < 0x17 then 0xfe else 0xf3
    else if b < 0x1c then if b < 0x1a then if b < 0x19 then 0xb8 else 0xb5 else if b < 0x1b then 0xa2 else 0xaf
      else if b < 0x1e then if b < 0x1d then 0x8c else 0x81 else if b < 0x1f then 0x96 else 0x9b
    else if b < 0x30 then if b < 0x28 then if b < 0x24 then if b < 0x22 then if b < 0x21 then 0xbb else 0xb6
      else if b < 0x23 then 0xa1 else 0xac else if b < 0x26 then if b < 0x25 then 0x8f else 0x82
      else if b < 0x27 then 0x95 else 0x98
    else if b < 0x2c then if b < 0x2a then if b < 0x29 then 0xd3 else 0xde else if b < 0x2b then 0xc9 else 0xc4
      else if b < 0x2e then if b < 0x2d then 0xe7 else 0xea else if b < 0x2f then 0xfd else 0xf0
    else if b < 0x38 then if b < 0x34 then if b < 0x32 then if b < 0x31 then 0x6b else 0x66
      else if b < 0x33 then 0x71 else 0x7c else if b < 0x36 then if b < 0x35 then 0x5f else 0x52
      else if b < 0x37 then 0x45 else 0x48
    else if b < 0x3c then if b < 0x3a then if b < 0x39 then 0x03 else 0x0e else if b < 0x3b then 0x19 else 0x14
      else if b < 0x3e then if b < 0x3d then 0x37 else 0x3a else if b < 0x3f then 0x2d else 0x20
    else if b < 0x60 then if b < 0x50 then if b < 0x48 then if b < 0x44 then if b < 0x42 then
      if b < 0x41 then 0x6d else 0x60 else if b < 0x43 then 0x77 else 0x7a else if b < 0x46 then
      if b < 0x45 then 0x59 else 0x54 else if b < 0x47 then 0x43 else 0x4e
    else if b < 0x4c then if b < 0x4a then if b < 0x49 then 0x05 else 0x08 else if b < 0x4b then 0x1f else 0x12
      else if b < 0x4e then if b < 0x4d then 0x31 else 0x3c else if b < 0x4f then 0x2b else 0x26
    else if b < 0x58 then if b < 0x54 then if b < 0x52 then if b < 0x51 then 0xbd else 0xb0
      else if b < 0x53 then 0xa7 else 0xaa else if b < 0x56 then if b < 0x55 then 0x89 else 0x84
      else if b < 0x57 then 0x93 else 0x9e
    else if b < 0x5c then if b < 0x5a then if b < 0x59 then 0xd5 else 0xd8 else if b < 0x5b then 0xcf else 0xc2
      else if b < 0x5e then if b < 0x5d then 0xe1 else 0xec else if b < 0x5f then 0xfb else 0xf6
    else if b < 0x70 then if b < 0x68 then if b < 0x64 then if b < 0x62 then if b < 0x61 then 0xd6 else 0xdb
      else if b < 0x63 then 0xcc else 0xc1 else if b < 0x66 then if b < 0x65 then 0xe2 else 0xef
      else if b < 0x67 then 0xf8 else 0xf5
    else if b < 0x6c then if b < 0x6a then if b < 0x69 then 0xbe else 0xb3 else if b < 0x6b then 0xa4 else 0xa9
      else if b < 0x6e then if b < 0x6d then 0x8a else 0x87 else if b < 0x6f then 0x90 else 0x9d
    else if b < 0x78 then if b < 0x74 then if b < 0x72 then if b < 0x71 then 0x06 else 0x0b
      else if b < 0x73 then 0x1c else 0x11 else if b < 0x76 then if b < 0x75 then 0x32 else 0x3f
      else if b < 0x77 then 0x28 else 0x25
    else if b < 0x7c then if b < 0x7a then if b < 0x79 then 0x6e else 0x63 else if b < 0x7b then 0x74 else 0x79
      else if b < 0x7e then if b < 0x7d then 0x5a else 0x57 else if b < 0x7f then 0x40 else 0x4d
    else if b < 0xc0 then if b < 0xa0 then if b < 0x90 then if b < 0x88 then if b < 0x84 then if b < 0x82 then
      if b < 0x81 then 0xda else 0xd7 else if b < 0x83 then 0xc0 else 0xcd else if b < 0x86 then
      if b < 0x85 then 0xee else 0xe3 else if b < 0x87 then 0xf4 else 0xf9
    else if b < 0x8c then if b < 0x8a then if b < 0x89 then 0xb2 else 0xbf else if b < 0x8b then 0xa8 else 0xa5
      else if b < 0x8e then if b < 0x8d then 0x86 else 0x8b else if b < 0x8f then 0x9c else 0x91
    else if b < 0x98 then if b < 0x94 then if b < 0x92 then if b < 0x91 then 0x0a else 0x07
      else if b < 0x93 then 0x10 else 0x1d else if b < 0x96 then if b < 0x95 then 0x3e else 0x33
      else if b < 0x97 then 0x24 else 0x29
    else if b < 0x9c then if b < 0x9a then if b < 0x99 then 0x62 else 0x6f else if b < 0x9b then 0x78 else 0x75
      else if b < 0x9e then if b < 0x9d then 0x56 else 0x5b else if b < 0x9f then 0x4c else 0x41
    else if b < 0xb0 then if b < 0xa8 then if b < 0xa4 then if b < 0xa2 then if b < 0xa1 then 0x61 else 0x6c
      else if b < 0xa3 then 0x7b else 0x76 else if b < 0xa6 then if b < 0xa5 then 0x55 else 0x58
      else if b < 0xa7 then 0x4f else 0x42
    else if b < 0xac then if b < 0xaa then if b < 0xa9 then 0x09 else 0x04 else if b < 0xab then 0x13 else 0x1e
      else if b < 0xae then if b < 0xad then 0x3d else 0x30 else if b < 0xaf then 0x27 else 0x2a
    else if b < 0xb8 then if b < 0xb4 then if b < 0xb2 then if b < 0xb1 then 0xb1 else 0xbc
      else if b < 0xb3 then 0xab else 0xa6 else if b < 0xb6 then if b < 0xb5 then 0x85 else 0x88
      else if b < 0xb7 then 0x9f else 0x92
    else if b < 0xbc then if b < 0xba then if b < 0xb9 then 0xd9 else 0xd4 else if b < 0xbb then 0xc3 else 0xce
      else if b < 0xbe then if b < 0xbd then 0xed else 0xe0 else if b < 0xbf then 0xf7 else 0xfa
    else if b < 0xe0 then if b < 0xd0 then if b < 0xc8 then if b < 0xc4 then if b < 0xc2 then
      if b < 0xc1 then 0xb7 else 0xba else if b < 0xc3 then 0xad else 0xa0 else if b < 0xc6 then
      if b < 0xc5 then 0x83 else 0x8e else if b < 0xc7 then 0x99 else 0x94
    else if b < 0xcc then if b < 0xca then if b < 0xc9 then 0xdf else 0xd2 else if b < 0xcb then 0xc5 else 0xc8
      else if b < 0xce then if b < 0xcd then 0xeb else 0xe6 else if b < 0xcf then 0xf1 else 0xfc
    else if b < 0xd8 then if b < 0xd4 then if b < 0xd2 then if b < 0xd1 then 0x67 else 0x6a
      else if b < 0xd3 then 0x7d else 0x70 else if b < 0xd6 then if b < 0xd5 then 0x53 else 0x5e
      else if b < 0xd7 then 0x49 else 0x44
    else if b < 0xdc then if b < 0xda then if b < 0xd9 then 0x0f else 0x02 else if b < 0xdb then 0x15 else 0x18
      else if b < 0xde then if b < 0xdd then 0x3b else 0x36 else if b < 0xdf then 0x21 else 0x2c
    else if b < 0xf0 then if b < 0xe8 then if b < 0xe4 then if b < 0xe2 then if b < 0xe1 then 0x0c else 0x01
      else if b < 0xe3 then 0x16 else 0x1b else if b < 0xe6 then if b < 0xe5 then 0x38 else 0x35
      else if b < 0xe7 then 0x22 else 0x2f
    else if b < 0xec then if b < 0xea then if b < 0xe9 then 0x64 else 0x69 else if b < 0xeb then 0x7e else 0x73
      else if b < 0xee then if b < 0xed then 0x50 else 0x5d else if b < 0xef then 0x4a else 0x47
    else if b < 0xf8 then if b < 0xf4 then if b < 0xf2 then if b < 0xf1 then 0xdc else 0xd1
      else if b < 0xf3 then 0xc6 else 0xcb else if b < 0xf6 then if b < 0xf5 then 0xe8 else 0xe5
      else if b < 0xf7 then 0xf2 else 0xff
    else if b < 0xfc then if b < 0xfa then if b < 0xf9 then 0xb4 else 0xb9 else if b < 0xfb then 0xae else 0xa3
      else if b < 0xfe then if b < 0xfd then 0x80 else 0x8d else if b < 0xff then 0x9a else 0x97
  }

  // oaes_gf_mul_e[b >> 4][b & 0xf]
  function GfMulE(b: Byte): Byte {
    if b < 0x80 then if b < 0x40 then if b < 0x20 then if b < 0x10 then if b < 0x08 then if b < 0x04 then
      if b < 0x02 then if b < 0x01 then 0x00 else 0x0e else if b < 0x03 then 0x1c else 0x12 else if b < 0x06 then
      if b < 0x05 then 0x38 else 0x36 else if b < 0x07 then 0x24 else 0x2a
    else if b < 0x0c then if b < 0x0a then if b < 0x09 then 0x70 else 0x7e else if b < 0x0b then 0x6c else 0x62
      else if b < 0x0e then if b < 0x0d then 0x48 else 0x46 else if b < 0x0f then 0x54 else 0x5a
    else if b < 0x18 then if b < 0x14 then if b < 0x12 then if b < 0x11 then 0xe0 else 0xee
      else if b < 0x13 then 0xfc else 0xf2 else if b < 0x16 then if b < 0x15 then 0xd8 else 0xd6
      else if b < 0x17 then 0xc4 else 0xca
    else if b < 0x1c then if b < 0x1a then if b < 0x19 then 0x90 else 0x9e else if b < 0x1b then 0x8c else 0x82
      else if b < 0x1e then if b < 0x1d then 0xa8 else 0xa6 else if b < 0x1f then 0xb4 else 0xba
    else if b < 0x30 then if b < 0x28 then if b < 0x24 then if b < 0x22 then if b < 0x21 then 0xdb else 0xd5
      else if b < 0x23 then 0xc7 else 0xc9 else if b < 0x26 then if b < 0x25 then 0xe3 else 0xed
      else if b < 0x27 then 0xff else 0xf1
    else if b < 0x2c then if b < 0x2a then if b < 0x29 then 0xab else 0xa5 else if b < 0x2b then 0xb7 else 0xb9
      else if b < 0x2e then if b < 0x2d then 0x93 else 0x9d else if b < 0x2f then 0x8f else 0x81
    else if b < 0x38 then if b < 0x34 then if b < 0x32 then if b < 0x31 then 0x3b else 0x35
      else if b < 0x33 then 0x27 else 0x29 else if b < 0x36 then if b < 0x35 then 0x03 else 0x0d
      else if b < 0x37 then 0x1f else 0x11
    else if b < 0x3c then if b < 0x3a then if b < 0x39 then 0x4b else 0x45 else if b < 0x3b then 0x57 else 0x59
      else if b < 0x3e then if b < 0x3d then 0x73 else 0x7d else if b < 0x3f then 0x6f else 0x61
    else if b < 0x60 then if b < 0x50 then if b < 0x48 then if b < 0x44 then if b < 0x42 then
      if b < 0x41 then 0xad else 0xa3 else if b < 0x43 then 0xb1 else 0xbf else if b < 0x46 then
      if b < 0x45 then 0x95 else 0x9b else if b < 0x47 then 0x89 else 0x87
    else if b < 0x4c then if b < 0x4a then if b < 0x49 then 0xdd else 0xd3 else if b < 0x4b then 0xc1 else 0xcf
      else if b < 0x4e then if b < 0x4d then 0xe5 else 0xeb else if b < 0x4f then 0xf9 else 0xf7
    else if b < 0x58 then if b < 0x54 then if b < 0x52 then if b < 0x51 then 0x4d else 0x43
      else if b < 0x53 then 0x51 else 0x5f else if b < 0x56 then if b < 0x55 then 0x75 else 0x7b
      else if b < 0x57 then 0x69 else 0x67
    else if b < 0x5c then if b < 0x5a then if b < 0x59 then 0x3d else 0x33 else if b < 0x5b then 0x21 else 0x2f
      else if b < 0x5e then if b < 0x5d then 0x05 else 0x0b else if b < 0x5f then 0x19 else 0x17
    else if b < 0x70 then if b < 0x68 then if b < 0x64 then if b < 0x62 then if b < 0x61 then 0x76 else 0x78
      else if b < 0x63 then 0x6a else 0x64 else if b < 0x66 then if b < 0x65 then 0x4e else 0x40
      else if b < 0x67 then 0x52 else 0x5c
    else if b < 0x6c then if b < 0x6a then if b < 0x69 then 0x06 else 0x08 else if b < 0x6b then 0x1a else 0x14
      else if b < 0x6e then if b < 0x6d then 0x3e else 0x30 else if b < 0x6f then 0x22 else 0x2c
    else if b < 0x78 then if b < 0x74 then if b < 0x72 then if b < 0x71 then 0x96 else 0x98
      else if b < 0x73 then 0x8a else 0x84 else if b < 0x76 then if b < 0x75 then 0xae else 0xa0
      else if b < 0x77 then 0xb2 else 0xbc
    else if b < 0x7c then if b < 0x7a then if b < 0x79 then 0xe6 else 0xe8 else if b < 0x7b then 0xfa else 0xf4
      else if b < 0x7e then if b < 0x7d then 0xde else 0xd0 else if b < 0x7f then 0xc2 else 0xcc
    else if b < 0xc0 then if b < 0xa0 then if b < 0x90 then if b < 0x88 then if b < 0x84 then if b < 0x82 then
      if b < 0x81 then 0x41 else 0x4f else if b < 0x83 then 0x5d else 0x53 else if b < 0x86 then
      if b < 0x85 then 0x79 else 0x77 else if b < 0x87 then 0x65 else 0x6b
    else if b < 0x8c then if b < 0x8a then if b < 0x89 then 0x31 else 0x3f else if b < 0x8b then 0x2d else 0x23
      else if b < 0x8e then if b < 0x8d then 0x09 else 0x07 else if b < 0x8f then 0x15 else 0x1b
    else if b < 0x98 then if b < 0x94 then if b < 0x92 then if b < 0x91 then 0xa1 else 0xaf
      else if b < 0x93 then 0xbd else 0xb3 else if b < 0x96 then if b < 0x95 then 0x99 else 0x97
      else if b < 0x97 then 0x85 else 0x8b
    else if b < 0x9c then if b < 0x9a then if b < 0x99 then 0xd1 else 0xdf else if b < 0x9b then 0xcd else 0xc3
      else if b < 0x9e then if b < 0x9d then 0xe9 else 0xe7 else if b < 0x9f then 0xf5 else 0xfb
    else if b < 0xb0 then if b < 0xa8 then if b < 0xa4 then if b < 0xa2 then if b < 0xa1 then 0x9a else 0x94
      else if b < 0xa3 then 0x86 else 0x88 else if b < 0xa6 then if b < 0xa5 then 0xa2 else 0xac
      else if b < 0xa7 then 0xbe else 0xb0
    else if b < 0xac then if b < 0xaa then if b < 0xa9 then 0xea else 0xe4 else if b < 0xab then 0xf6 else 0xf8
      else if b < 0xae then if b < 0xad then 0xd2 else 0xdc else if b < 0xaf then 0xce else 0xc0
    else if b < 0xb8 then if b < 0xb4 then if b < 0xb2 then if b < 0xb1 then 0x7a else 0x74
      else if b < 0xb3 then 0x66 else 0x68 else if b < 0xb6 then if b < 0xb5 then 0x42 else 0x4c
      else if b < 0xb7 then 0x5e else 0x50
    else if b < 0xbc then if b < 0xba then if b < 0xb9 then 0x0a else 0x04 else if b < 0xbb then 0x16 else 0x18
      else if b < 0xbe then if b < 0xbd then 0x32 else 0x3c else if b < 0xbf then 0x2e else 0x20
    else if b < 0xe0 then if b < 0xd0 then if b < 0xc8 then if b < 0xc4 then if b < 0xc2 then
      if b < 0xc1 then 0xec else 0xe2 else if b < 0xc3 then 0xf0 else 0xfe else if b < 0xc6 then
      if b < 0xc5 then 0xd4 else 0xda else if b < 0xc7 then 0xc8 else 0xc6
    else if b < 0xcc then if b < 0xca then if b < 0xc9 then 0x9c else 0x92 else if b < 0xcb then 0x80 else 0x8e
      else if b < 0xce then if b < 0xcd then 0xa4 else 0xaa else if b < 0xcf then 0xb8 else 0xb6
    else if b < 0xd8 then if b < 0xd4 then if b < 0xd2 then if b < 0xd1 then 0x0c else 0x02
      else if b < 0xd3 then 0x10 else 0x1e else if b < 0xd6 then if b < 0xd5 then 0x34 else 0x3a
      else if b < 0xd7 then 0x28 else 0x26
    else if b < 0xdc then if b < 0xda then if b < 0xd9 then 0x7c else 0x72 else if b < 0xdb then 0x60 else 0x6e
      else if b < 0xde then if b < 0xdd then 0x44 else 0x4a else if b < 0xdf then 0x58 else 0x56
    else if b < 0xf0 then if b < 0xe8 then if b < 0xe4 then if b < 0xe2 then if b < 0xe1 then 0x37 else 0x39
      else if b < 0xe3 then 0x2b else 0x25 else if b < 0xe6 then if b < 0xe5 then 0x0f else 0x01
      else if b < 0xe7 then 0x13 else 0x1d
    else if b < 0xec then if b < 0xea then if b < 0xe9 then 0x47 else 0x49 else if b < 0xeb then 0x5b else 0x55
      else if b < 0xee then if b < 0xed then 0x7f else 0x71 else if b < 0xef then 0x63 else 0x6d
    else if b < 0xf8 then if b < 0xf4 then if b < 0xf2 then if b < 0xf1 then 0xd7 else 0xd9
      else if b < 0xf3 then 0xcb else 0xc5 else if b < 0xf6 then if b < 0xf5 then 0xef else 0xe1
      else if b < 0xf7 then 0xf3 else 0xfd
    else if b < 0xfc then if b < 0xfa then if b < 0xf9 then 0xa7 else 0xa9 else if b < 0xfb then 0xbb else 0xb5
      else if b < 0xfe then if b < 0xfd then 0x9f else 0x91 else if b < 0xff then 0x83 else 0x8d
  }

  // ----- the field behind the tables -----

  // Multiplication by x modulo x^8 + x^4 + x^3 + x + 1.
  function Xtime(b: Byte): Byte {
    XorByte(b << 1, Carry(b))
  }

  function Carry(b: Byte): Byte {
    if b & 0x80 != 0 then 0x1b else 0
  }

  // Exclusive or of four bytes, the sum of four field elements.
  function Xor4(p: Byte, q: Byte, r: Byte, s: Byte): Byte {
    XorByte(XorByte(p, q), XorByte(r, s))
  }

  // Multiplication by a constant below 16, bit by bit of the constant.
  function Times(k: bv4, b: Byte): Byte {
    Xor4(if k & 1 != 0 then b else 0,
         if k & 2 != 0 then Xtime(b) else 0,
         if k & 4 != 0 then Xtime(Xtime(b)) else 0,
         if k & 8 != 0 then Xtime(Xtime(Xtime(b))) else 0)
  }

  lemma SubByteInverse(b: Byte)
    ensures InvSubByte(SubByte(b)) == b
  {
  }

  lemma InvSubByteInverse(b: Byte)
    ensures SubByte(InvSubByte(b)) == b
  {
  }

  // Xtime with its operations written out.
  function Double(b: Byte): Byte {
    (b << 1) ^ (if b & 0x80 != 0 then 0x1b else 0)
  }

  lemma XtimeIs(b: Byte)
    ensures Xtime(b) == Double(b)
  {
  }

  lemma Xor4Is(p: Byte, q: Byte, r: Byte, s: Byte)
    ensures Xor4(p, q, r, s) == (p ^ q) ^ (r ^ s)
  {
  }

  // Every product is a sum of doublings: both are the sum of the products of the bits of `b`.

  lemma GfMul2Bits(b: Byte)
    ensures GfMul2(b) ==
            ((b & 1) * 0x02) ^ (((b >> 1) & 1) * 0x04) ^ (((b >> 2) & 1) * 0x08) ^ (((b >> 3) & 1) * 0x10) ^
            (((b >> 4) & 1) * 0x20) ^ (((b >> 5) & 1) * 0x40) ^ (((b >> 6) & 1) * 0x80) ^ (((b >> 7) & 1) * 0x1b)
  {
  }

  lemma Doubles2Bits(b: Byte)
    ensures Double(b) ==
            ((b & 1) * 0x02) ^ (((b >> 1) & 1) * 0x04) ^ (((b >> 2) & 1) * 0x08) ^ (((b >> 3) & 1) * 0x10) ^
            (((b >> 4) & 1) * 0x20) ^ (((b >> 5) & 1) * 0x40) ^ (((b >> 6) & 1) * 0x80) ^ (((b >> 7) & 1) * 0x1b)
  {
  }

  lemma GfMul2Is(b: Byte)
    ensures GfMul2(b) == Double(b)
  {
    hide *;
    GfMul2Bits(b);
    Doubles2Bits(b);
  }

  lemma GfMul3Bits(b: Byte)
    ensures GfMul3(b) ==
            ((b & 1) * 0x03) ^ (((b >> 1) & 1) * 0x06) ^ (((b >> 2) & 1) * 0x0c) ^ (((b >> 3) & 1) * 0x18) ^
            (((b >> 4) & 1) * 0x30) ^ (((b >> 5) & 1) * 0x60) ^ (((b >> 6) & 1) * 0xc0) ^ (((b >> 7) & 1) * 0x9b)
  {
  }

  lemma GfMul9Bits(b: Byte)
    ensures GfMul9(b) ==
            ((b & 1) * 0x09) ^ (((b >> 1) & 1) * 0x12) ^ (((b >> 2) & 1) * 0x24) ^ (((b >> 3) & 1) * 0x48) ^
            (((b >> 4) & 1) * 0x90) ^ (((b >> 5) & 1) * 0x3b) ^ (((b >> 6) & 1) * 0x76) ^ (((b >> 7) & 1) * 0xec)
  {
  }

  lemma Doubles9Bits(b: Byte)
    ensures b ^ Double(Double(Double(b))) ==
            ((b & 1) * 0x09) ^ (((b >> 1) & 1) * 0x12) ^ (((b >> 2) & 1) * 0x24) ^ (((b >> 3) & 1) * 0x48) ^
            (((b >> 4) & 1) * 0x90) ^ (((b >> 5) & 1) * 0x3b) ^ (((b >> 6) & 1) * 0x76) ^ (((b >> 7) & 1) * 0xec)
  {
  }

  lemma GfMul9Is(b: Byte)
    ensures GfMul9(b) == b ^ Double(Double(Double(b)))
  {
    hide *;
    GfMul9Bits(b);
    Doubles9Bits(b);
  }

  lemma GfMulBBits(b: Byte)
    ensures GfMulB(b) ==
            ((b & 1) * 0x0b) ^ (((b >> 1) & 1) * 0x16) ^ (((b >> 2) & 1) * 0x2c) ^ (((b >> 3) & 1) * 0x58) ^
            (((b >> 4) & 1) * 0xb0) ^ (((b >> 5) & 1) * 0x7b) ^ (((b >> 6) & 1) * 0xf6) ^ (((b >> 7) & 1) * 0xf7)
  {
  }

  lemma DoublesBBits(b: Byte)
    ensures b ^ Double(b) ^ Double(Double(Double(b))) ==
            ((b & 1) * 0x0b) ^ (((b >> 1) & 1) * 0x16) ^ (((b >> 2) & 1) * 0x2c) ^ (((b >> 3) & 1) * 0x58) ^
            (((b >> 4) & 1) * 0xb0) ^ (((b >> 5) & 1) * 0x7b) ^ (((b >> 6) & 1) * 0xf6) ^ (((b >> 7) & 1) * 0xf7)
  {
  }

  lemma GfMulBIs(b: Byte)
    ensures GfMulB(b) == b ^ Double(b) ^ Double(Double(Double(b)))
  {
    hide *;
    GfMulBBits(b);
    DoublesBBits(b);
  }

  lemma GfMulDBits(b: Byte)
    ensures GfMulD(b) ==
            ((b & 1) * 0x0d) ^ (((b >> 1) & 1) * 0x1a) ^ (((b >> 2) & 1) * 0x34) ^ (((b >> 3) & 1) * 0x68) ^
            (((b >> 4) & 1) * 0xd0) ^ (((b >> 5) & 1) * 0xbb) ^ (((b >> 6) & 1) * 0x6d) ^ (((b >> 7) & 1) * 0xda)
  {
  }

  lemma DoublesDBits(b: Byte)
    ensures b ^ Double(Double(b)) ^ Double(Double(Double(b))) ==
            ((b & 1) * 0x0d) ^ (((b >> 1) & 1) * 0x1a) ^ (((b >> 2) & 1) * 0x34) ^ (((b >> 3) & 1) * 0x68) ^
            (((b >> 4) & 1) * 0xd0) ^ (((b >> 5) & 1) * 0xbb) ^ (((b >> 6) & 1) * 0x6d) ^ (((b >> 7) & 1) * 0xda)
  {
  }

  lemma GfMulDIs(b: Byte)
    ensures GfMulD(b) == b ^ Double(Double(b)) ^ Double(Double(Double(b)))
  {
    hide *;
    GfMulDBits(b);
    DoublesDBits(b);
  }

  lemma GfMulEBits(b: Byte)
    ensures GfMulE(b) ==
            ((b & 1) * 0x0e) ^ (((b >> 1) & 1) * 0x1c) ^ (((b >> 2) & 1) * 0x38) ^ (((b >> 3) & 1) * 0x70) ^
            (((b >> 4) & 1) * 0xe0) ^ (((b >> 5) & 1) * 0xdb) ^ (((b >> 6) & 1) * 0xad) ^ (((b >> 7) & 1) * 0x41)
  {
  }

  lemma DoublesEBits(b: Byte)
    ensures Double(b) ^ Double(Double(b)) ^ Double(Double(Double(b))) ==
            ((b & 1) * 0x0e) ^ (((b >> 1) & 1) * 0x1c) ^ (((b >> 2) & 1) * 0x38) ^ (((b >> 3) & 1) * 0x70) ^
            (((b >> 4) & 1) * 0xe0) ^ (((b >> 5) & 1) * 0xdb) ^ (((b >> 6) & 1) * 0xad) ^ (((b >> 7) & 1) * 0x41)
  {
  }

  lemma GfMulEIs(b: Byte)
    ensures GfMulE(b) == Double(b) ^ Double(Double(b)) ^ Double(Double(Double(b)))
  {
    hide *;
    GfMulEBits(b);
    DoublesEBits(b);
  }

  lemma Times2(b: Byte)
    ensures Times(2, b) == Xor4(0, Xtime(b), 0, 0)
  {
    hide Xor4, Xtime;
  }

  lemma GfMul2IsTimes(b: Byte)
    ensures GfMul2(b) == Times(2, b)
  {
    hide *;
    GfMul2Is(b);
    Times2(b);
    XtimeIs(b);
    Xor4Is(0, Double(b), 0, 0);
  }

  lemma Times9(b: Byte)
    ensures Times(9, b) == Xor4(b, 0, 0, Xtime(Xtime(Xtime(b))))
  {
    hide Xor4, Xtime;
  }

  lemma GfMul9IsTimes(b: Byte)
    ensures GfMul9(b) == Times(9, b)
  {
    hide *;
    GfMul9Is(b);
    Times9(b);
    XtimeIs(b);
    XtimeIs(Double(b));
    XtimeIs(Double(Double(b)));
    Xor4Is(b, 0, 0, Double(Double(Double(b))));
  }

  lemma TimesB(b: Byte)
    ensures Times(0xb, b) == Xor4(b, Xtime(b), 0, Xtime(Xtime(Xtime(b))))
  {
    hide Xor4, Xtime;
  }

  lemma GfMulBIsTimes(b: Byte)
    ensures GfMulB(b) == Times(0xb, b)
  {
    hide *;
    GfMulBIs(b);
    TimesB(b);
    XtimeIs(b);
    XtimeIs(Double(b));
    XtimeIs(Double(Double(b)));
    Xor4Is(b, Double(b), 0, Double(Double(Double(b))));
  }

  lemma TimesD(b: Byte)
    ensures Times(0xd, b) == Xor4(b, 0, Xtime(Xtime(b)), Xtime(Xtime(Xtime(b))))
  {
    hide Xor4, Xtime;
  }

  lemma GfMulDIsTimes(b: Byte)
    ensures GfMulD(b) == Times(0xd, b)
  {
    hide *;
    GfMulDIs(b);
    TimesD(b);
    XtimeIs(b);
    XtimeIs(Double(b));
    XtimeIs(Double(Double(b)));
    Xor4Is(b, 0, Double(Double(b)), Double(Double(Double(b))));
  }

  lemma TimesE(b: Byte)
    ensures Times(0xe, b) == Xor4(0, Xtime(b), Xtime(Xtime(b)), Xtime(Xtime(Xtime(b))))
  {
    hide Xor4, Xtime;
  }

  lemma GfMulEIsTimes(b: Byte)
    ensures GfMulE(b) == Times(0xe, b)
  {
    hide *;
    GfMulEIs(b);
    TimesE(b);
    XtimeIs(b);
    XtimeIs(Double(b));
    XtimeIs(Double(Double(b)));
    Xor4Is(0, Double(b), Double(Double(b)), Double(Double(Double(b))));
  }

  lemma XorExchange(p: Byte, q: Byte, r: Byte, s: Byte)
    ensures XorByte(XorByte(p, q), XorByte(r, s)) == XorByte(XorByte(p, r), XorByte(q, s))
  {
    hide XorByte;
    XorByteAssociates(p, q, XorByte(r, s));
    XorByteAssociates(q, r, s);
    XorByteCommutes(q, r);
    XorByteAssociates(r, q, s);
    XorByteAssociates(p, r, XorByte(q, s));
  }

  lemma CarryLinear(p: Byte, q: Byte)
    ensures Carry(p ^ q) == Carry(p) ^ Carry(q)
    ensures (p ^ q) << 1 == (p << 1) ^ (q << 1)
  {
  }

  lemma XorByteValue(p: Byte, q: Byte)
    ensures XorByte(p, q) == p ^ q
  {
  }

  lemma XtimeLinear(p: Byte, q: Byte)
    ensures Xtime(XorByte(p, q)) == XorByte(Xtime(p), Xtime(q))
  {
    hide Carry, XorByte;
    CarryLinear(p, q);
    XorByteValue(p, q);
    XorByteValue(p << 1, q << 1);
    XorByteValue(Carry(p), Carry(q));
    XorExchange(p << 1, q << 1, Carry(p), Carry(q));
  }

  lemma Xor4Exchange(p0: Byte, p1: Byte, p2: Byte, p3: Byte, q0: Byte, q1: Byte, q2: Byte, q3: Byte)
    ensures XorByte(Xor4(p0, p1, p2, p3), Xor4(q0, q1, q2, q3))
         == Xor4(XorByte(p0, q0), XorByte(p1, q1), XorByte(p2, q2), XorByte(p3, q3))
  {
    hide XorByte;
    XorExchange(XorByte(p0, p1), XorByte(p2, p3), XorByte(q0, q1), XorByte(q2, q3));
    XorExchange(p0, p1, q0, q1);
    XorExchange(p2, p3, q2, q3);
  }

  lemma TimesLinear(k: bv4, p: Byte, q: Byte)
    ensures Times(k, XorByte(p, q)) == XorByte(Times(k, p), Times(k, q))
  {
    hide XorByte, Xtime, Xor4;
    XtimeLinear(p, q);
    XtimeLinear(Xtime(p), Xtime(q));
    XtimeLinear(Xtime(Xtime(p)), Xtime(Xtime(q)));
    XorZero();
    Xor4Exchange(if k & 1 != 0 then p else 0, if k & 2 != 0 then Xtime(p) else 0,
                 if k & 4 != 0 then Xtime(Xtime(p)) else 0, if k & 8 != 0 then Xtime(Xtime(Xtime(p))) else 0,
                 if k & 1 != 0 then q else 0, if k & 2 != 0 then Xtime(q) else 0,
                 if k & 4 != 0 then Xtime(Xtime(q)) else 0, if k & 8 != 0 then Xtime(Xtime(Xtime(q))) else 0);
  }

  lemma XorZero()
    ensures XorByte(0, 0) == 0
  {
  }

  lemma Times4(k: bv4, p: Byte, q: Byte, r: Byte, s: Byte)
    ensures Times(k, Xor4(p, q, r, s)) == Xor4(Times(k, p), Times(k, q), Times(k, r), Times(k, s))
  {
    hide XorByte, Times;
    TimesLinear(k, XorByte(p, q), XorByte(r, s));
    TimesLinear(k, p, q);
    TimesLinear(k, r, s);
  }

  // ----- columns -----

  // One byte of MixColumns, from the bytes of a column starting at its own row.
  function MixByte(a: Byte, b: Byte, c: Byte, d: Byte): Byte {
    Xor4(GfMul2(a), GfMul3(b), c, d)
  }

  function InvMixByte(a: Byte, b: Byte, c: Byte, d: Byte): Byte {
    Xor4(GfMulE(a), GfMulB(b), GfMulD(c), GfMul9(d))
  }

  // A product of a product.

  lemma GfMulEOf2(b: Byte)
    ensures GfMulE(GfMul2(b)) ==
            ((b & 1) * 0x1c) ^ (((b >> 1) & 1) * 0x38) ^ (((b >> 2) & 1) * 0x70) ^ (((b >> 3) & 1) * 0xe0) ^
            (((b >> 4) & 1) * 0xdb) ^ (((b >> 5) & 1) * 0xad) ^ (((b >> 6) & 1) * 0x41) ^ (((b >> 7) & 1) * 0x82)
  {
    hide *;
    GfMul2Bits(b);
    GfMulEBits(GfMul2(b));
  }

  lemma GfMul9Of3(b: Byte)
    ensures GfMul9(GfMul3(b)) ==
            ((b & 1) * 0x1b) ^ (((b >> 1) & 1) * 0x36) ^ (((b >> 2) & 1) * 0x6c) ^ (((b >> 3) & 1) * 0xd8) ^
            (((b >> 4) & 1) * 0xab) ^ (((b >> 5) & 1) * 0x4d) ^ (((b >> 6) & 1) * 0x9a) ^ (((b >> 7) & 1) * 0x2f)
  {
    hide *;
    GfMul3Bits(b);
    GfMul9Bits(GfMul3(b));
  }

  lemma GfMulEOf3(b: Byte)
    ensures GfMulE(GfMul3(b)) ==
            ((b & 1) * 0x12) ^ (((b >> 1) & 1) * 0x24) ^ (((b >> 2) & 1) * 0x48) ^ (((b >> 3) & 1) * 0x90) ^
            (((b >> 4) & 1) * 0x3b) ^ (((b >> 5) & 1) * 0x76) ^ (((b >> 6) & 1) * 0xec) ^ (((b >> 7) & 1) * 0xc3)
  {
    hide *;
    GfMul3Bits(b);
    GfMulEBits(GfMul3(b));
  }

  lemma GfMulBOf2(b: Byte)
    ensures GfMulB(GfMul2(b)) ==
            ((b & 1) * 0x16) ^ (((b >> 1) & 1) * 0x2c) ^ (((b >> 2) & 1) * 0x58) ^ (((b >> 3) & 1) * 0xb0) ^
            (((b >> 4) & 1) * 0x7b) ^ (((b >> 5) & 1) * 0xf6) ^ (((b >> 6) & 1) * 0xf7) ^ (((b >> 7) & 1) * 0xf5)
  {
    hide *;
    GfMul2Bits(b);
    GfMulBBits(GfMul2(b));
  }

  lemma GfMulBOf3(b: Byte)
    ensures GfMulB(GfMul3(b)) ==
            ((b & 1) * 0x1d) ^ (((b >> 1) & 1) * 0x3a) ^ (((b >> 2) & 1) * 0x74) ^ (((b >> 3) & 1) * 0xe8) ^
            (((b >> 4) & 1) * 0xcb) ^ (((b >> 5) & 1) * 0x8d) ^ (((b >> 6) & 1) * 0x01) ^ (((b >> 7) & 1) * 0x02)
  {
    hide *;
    GfMul3Bits(b);
    GfMulBBits(GfMul3(b));
  }

  lemma GfMulDOf2(b: Byte)
    ensures GfMulD(GfMul2(b)) ==
            ((b & 1) * 0x1a) ^ (((b >> 1) & 1) * 0x34) ^ (((b >> 2) & 1) * 0x68) ^ (((b >> 3) & 1) * 0xd0) ^
            (((b >> 4) & 1) * 0xbb) ^ (((b >> 5) & 1) * 0x6d) ^ (((b >> 6) & 1) * 0xda) ^ (((b >> 7) & 1) * 0xaf)
  {
    hide *;
    GfMul2Bits(b);
    GfMulDBits(GfMul2(b));
  }

  lemma GfMulDOf3(b: Byte)
    ensures GfMulD(GfMul3(b)) ==
            ((b & 1) * 0x17) ^ (((b >> 1) & 1) * 0x2e) ^ (((b >> 2) & 1) * 0x5c) ^ (((b >> 3) & 1) * 0xb8) ^
            (((b >> 4) & 1) * 0x6b) ^ (((b >> 5) & 1) * 0xd6) ^ (((b >> 6) & 1) * 0xb7) ^ (((b >> 7) & 1) * 0x75)
  {
    hide *;
    GfMul3Bits(b);
    GfMulDBits(GfMul3(b));
  }

  lemma GfMul9Of2(b: Byte)
    ensures GfMul9(GfMul2(b)) ==
            ((b & 1) * 0x12) ^ (((b >> 1) & 1) * 0x24) ^ (((b >> 2) & 1) * 0x48) ^ (((b >> 3) & 1) * 0x90) ^
            (((b >> 4) & 1) * 0x3b) ^ (((b >> 5) & 1) * 0x76) ^ (((b >> 6) & 1) * 0xec) ^ (((b >> 7) & 1) * 0xc3)
  {
    hide *;
    GfMul2Bits(b);
    GfMul9Bits(GfMul2(b));
  }

  // The four products that meet in one byte of InvMixColumns after MixColumns.

  lemma InvMixDiagonal(b: Byte)
    ensures Xor4(GfMulE(GfMul2(b)), GfMulB(b), GfMulD(b), GfMul9(GfMul3(b))) == b
  {
    hide *;
    GfMulEOf2(b);
    GfMulBBits(b);
    GfMulDBits(b);
    GfMul9Of3(b);
    Xor4Is(GfMulE(GfMul2(b)), GfMulB(b), GfMulD(b), GfMul9(GfMul3(b)));
  }

  lemma InvMixOffDiagonal1(b: Byte)
    ensures Xor4(GfMulE(GfMul3(b)), GfMulB(GfMul2(b)), GfMulD(b), GfMul9(b)) == 0
  {
    hide *;
    GfMulEOf3(b);
    GfMulBOf2(b);
    GfMulDBits(b);
    GfMul9Bits(b);
    Xor4Is(GfMulE(GfMul3(b)), GfMulB(GfMul2(b)), GfMulD(b), GfMul9(b));
  }

  lemma InvMixOffDiagonal2(b: Byte)
    ensures Xor4(GfMulE(b), GfMulB(GfMul3(b)), GfMulD(GfMul2(b)), GfMul9(b)) == 0
  {
    hide *;
    GfMulEBits(b);
    GfMulBOf3(b);
    GfMulDOf2(b);
    GfMul9Bits(b);
    Xor4Is(GfMulE(b), GfMulB(GfMul3(b)), GfMulD(GfMul2(b)), GfMul9(b));
  }

  lemma InvMixOffDiagonal3(b: Byte)
    ensures Xor4(GfMulE(b), GfMulB(b), GfMulD(GfMul3(b)), GfMul9(GfMul2(b))) == 0
  {
    hide *;
    GfMulEBits(b);
    GfMulBBits(b);
    GfMulDOf3(b);
    GfMul9Of2(b);
    Xor4Is(GfMulE(b), GfMulB(b), GfMulD(GfMul3(b)), GfMul9(GfMul2(b)));
  }

  lemma GfLinear(p: Byte, q: Byte, r: Byte, s: Byte)
    ensures GfMulE(Xor4(p, q, r, s)) == Xor4(GfMulE(p), GfMulE(q), GfMulE(r), GfMulE(s))
    ensures GfMulB(Xor4(p, q, r, s)) == Xor4(GfMulB(p), GfMulB(q), GfMulB(r), GfMulB(s))
    ensures GfMulD(Xor4(p, q, r, s)) == Xor4(GfMulD(p), GfMulD(q), GfMulD(r), GfMulD(s))
    ensures GfMul9(Xor4(p, q, r, s)) == Xor4(GfMul9(p), GfMul9(q), GfMul9(r), GfMul9(s))
  {
    hide GfMul9, GfMulB, GfMulD, GfMulE, Times, Xor4;
    forall b: Byte
      ensures GfMulE(b) == Times(0xe, b) && GfMulB(b) == Times(0xb, b)
      ensures GfMulD(b) == Times(0xd, b) && GfMul9(b) == Times(9, b)
    {
      GfMul9IsTimes(b);
      GfMulBIsTimes(b);
      GfMulDIsTimes(b);
      GfMulEIsTimes(b);
    }
    Times4(0xe, p, q, r, s);
    Times4(0xb, p, q, r, s);
    Times4(0xd, p, q, r, s);
    Times4(9, p, q, r, s);
  }

  lemma Xor4Rotate(p: Byte, q: Byte, r: Byte, s: Byte)
    ensures Xor4(p, q, r, s) == Xor4(q, r, s, p) == Xor4(r, s, p, q) == Xor4(s, p, q, r)
  {
    hide XorByte;
    XorByteCommutes(XorByte(p, q), XorByte(r, s));
    XorByteCommutes(p, q);
    XorByteCommutes(p, s);
    XorExchange(q, p, r, s);
    XorByteCommutes(XorByte(q, r), XorByte(p, s));
    XorByteCommutes(XorByte(q, r), XorByte(s, p));
  }

  // Four sums of four, summed by columns instead of rows.
  lemma Transpose(a0: Byte, a1: Byte, a2: Byte, a3: Byte, b0: Byte, b1: Byte, b2: Byte, b3: Byte,
                  c0: Byte, c1: Byte, c2: Byte, c3: Byte, d0: Byte, d1: Byte, d2: Byte, d3: Byte)
    ensures Xor4(Xor4(a0, a1, a2, a3), Xor4(b0, b1, b2, b3), Xor4(c0, c1, c2, c3), Xor4(d0, d1, d2, d3))
         == Xor4(Xor4(a0, b0, c0, d0), Xor4(a1, b1, c1, d1), Xor4(a2, b2, c2, d2), Xor4(a3, b3, c3, d3))
  {
    hide XorByte;
    Xor4Exchange(a0, a1, a2, a3, b0, b1, b2, b3);
    Xor4Exchange(c0, c1, c2, c3, d0, d1, d2, d3);
    Xor4Exchange(XorByte(a0, b0), XorByte(a1, b1), XorByte(a2, b2), XorByte(a3, b3),
                 XorByte(c0, d0), XorByte(c1, d1), XorByte(c2, d2), XorByte(c3, d3));
  }

  // InvMixColumns undoes MixColumns, one byte of a column.
  lemma MixByteInverse(a: Byte, b: Byte, c: Byte, d: Byte)
    ensures InvMixByte(MixByte(a, b, c, d), MixByte(b, c, d, a), MixByte(c, d, a, b), MixByte(d, a, b, c)) == a
  {
    hide XorByte, Xor4, GfMul2, GfMul3, GfMul9, GfMulB, GfMulD, GfMulE;
    GfLinear(GfMul2(a), GfMul3(b), c, d);
    GfLinear(GfMul2(b), GfMul3(c), d, a);
    GfLinear(GfMul2(c), GfMul3(d), a, b);
    GfLinear(GfMul2(d), GfMul3(a), b, c);
    Xor4Rotate(GfMulB(GfMul2(b)), GfMulB(GfMul3(c)), GfMulB(d), GfMulB(a));
    Xor4Rotate(GfMulD(GfMul2(c)), GfMulD(GfMul3(d)), GfMulD(a), GfMulD(b));
    Xor4Rotate(GfMul9(GfMul2(d)), GfMul9(GfMul3(a)), GfMul9(b), GfMul9(c));
    Transpose(GfMulE(GfMul2(a)), GfMulE(GfMul3(b)), GfMulE(c), GfMulE(d),
              GfMulB(a), GfMulB(GfMul2(b)), GfMulB(GfMul3(c)), GfMulB(d),
              GfMulD(a), GfMulD(b), GfMulD(GfMul2(c)), GfMulD(GfMul3(d)),
              GfMul9(GfMul3(a)), GfMul9(b), GfMul9(c), GfMul9(GfMul2(d)));
    InvMixDiagonal(a);
    InvMixOffDiagonal1(b);
    InvMixOffDiagonal2(c);
    InvMixOffDiagonal3(d);
    Xor4Zero(a);
  }

  lemma Xor4Zero(a: Byte)
    ensures Xor4(a, 0, 0, 0) == a
  {
  }
}
