/** The key schedule of the test key of RFC 7801, step by step. */
module KnownSchedule {
  import opened Bytes
  import opened LinearLayer
  import opened SBox
  import opened Rfc7801
  import opened Vectors
  import opened IterationConstants

  /** The master key of section 5.4 of RFC 7801. */
  const KEY: MasterKey := [
    0x88, 0x99, 0xaa, 0xbb, 0xcc, 0xdd, 0xee, 0xff, 0x00, 0x11, 0x22, 0x33, 0x44, 0x55, 0x66, 0x77,
    0xfe, 0xdc, 0xba, 0x98, 0x76, 0x54, 0x32, 0x10, 0x01, 0x23, 0x45, 0x67, 0x89, 0xab, 0xcd, 0xef]

  // The keys: P1 and P0 are the halves of the master key, each step makes the next one.

  const P0 := Vec(0xfe, 0xdc, 0xba, 0x98, 0x76, 0x54, 0x32, 0x10, 0x01, 0x23, 0x45, 0x67, 0x89, 0xab, 0xcd, 0xef)
  const P1 := Vec(0x88, 0x99, 0xaa, 0xbb, 0xcc, 0xdd, 0xee, 0xff, 0x00, 0x11, 0x22, 0x33, 0x44, 0x55, 0x66, 0x77)
  const P2 := Vec(0xc3, 0xd5, 0xfa, 0x01, 0xeb, 0xe3, 0x6f, 0x7a, 0x93, 0x74, 0x42, 0x7a, 0xd7, 0xca, 0x89, 0x49)
  const P3 := Vec(0x37, 0x77, 0x77, 0x48, 0xe5, 0x64, 0x53, 0x37, 0x7d, 0x5e, 0x26, 0x2d, 0x90, 0x90, 0x3f, 0x87)
  const P4 := Vec(0xf9, 0xea, 0xe5, 0xf2, 0x9b, 0x28, 0x15, 0xe3, 0x1f, 0x11, 0xac, 0x5d, 0x9c, 0x29, 0xfb, 0x01)
  const P5 := Vec(0xe9, 0x80, 0x08, 0x96, 0x83, 0xd0, 0x0d, 0x4b, 0xe3, 0x7d, 0xd3, 0x43, 0x46, 0x99, 0xb9, 0x8f)
  const P6 := Vec(0xb7, 0xbd, 0x70, 0xac, 0xea, 0x44, 0x60, 0x71, 0x4f, 0x4e, 0xbe, 0x13, 0x83, 0x5c, 0xf0, 0x04)
  const P7 := Vec(0x1a, 0x46, 0xea, 0x1c, 0xf6, 0xcc, 0xd2, 0x36, 0x46, 0x72, 0x87, 0xdf, 0x93, 0xfd, 0xf9, 0x74)
  const P8 := Vec(0x3d, 0x45, 0x53, 0xd8, 0xe9, 0xcf, 0xec, 0x68, 0x15, 0xeb, 0xad, 0xc4, 0x0a, 0x9f, 0xfd, 0x04)
  const P9 := Vec(0xdb, 0x31, 0x48, 0x53, 0x15, 0x69, 0x43, 0x43, 0x22, 0x8d, 0x6a, 0xef, 0x8c, 0xc7, 0x8c, 0x44)
  const P10 := Vec(0x9f, 0xd1, 0x15, 0x42, 0x9e, 0x5c, 0xba, 0x6e, 0x2d, 0xd3, 0x92, 0xb6, 0x6b, 0x08, 0x89, 0x52)
  const P11 := Vec(0x99, 0x32, 0xbf, 0x7f, 0x9a, 0xf6, 0x2f, 0xc2, 0xee, 0x54, 0x9f, 0x9f, 0x55, 0x97, 0xc3, 0x5b)
  const P12 := Vec(0x44, 0xf6, 0x42, 0x92, 0x90, 0x6a, 0xb4, 0xee, 0xe5, 0x54, 0x06, 0x98, 0xd2, 0x30, 0xfc, 0x17)
  const P13 := Vec(0x41, 0xca, 0x39, 0x9e, 0x1e, 0x02, 0x69, 0x18, 0x96, 0x06, 0xe0, 0xd5, 0xca, 0x3c, 0xd8, 0x8d)
  const P14 := Vec(0x2e, 0xd6, 0x12, 0xc2, 0x3f, 0x44, 0x59, 0x30, 0xef, 0x62, 0xd1, 0x59, 0xe5, 0x24, 0xcd, 0x31)
  const P15 := Vec(0xca, 0xb1, 0x38, 0xdd, 0x9e, 0xaa, 0xac, 0x28, 0x04, 0x0f, 0x9b, 0xab, 0x6a, 0x02, 0x29, 0x34)
  const P16 := Vec(0xbd, 0x07, 0x94, 0x35, 0x16, 0x5c, 0x64, 0x32, 0xb5, 0x32, 0xe8, 0x28, 0x34, 0xda, 0x58, 0x1b)
  const P17 := Vec(0x57, 0x64, 0x64, 0x68, 0xc4, 0x4a, 0x5e, 0x28, 0xd3, 0xe5, 0x92, 0x46, 0xf4, 0x29, 0xf1, 0xac)
  const P18 := Vec(0x58, 0x73, 0x27, 0xe2, 0xdc, 0x60, 0xa8, 0x52, 0x27, 0x5d, 0x93, 0xe0, 0x51, 0x82, 0xeb, 0x5c)
  const P19 := Vec(0xe4, 0xac, 0x73, 0x5f, 0x23, 0xf7, 0x5f, 0x8b, 0x48, 0xdc, 0x05, 0xfc, 0x37, 0xc4, 0x47, 0x79)
  const P20 := Vec(0x31, 0x2d, 0xf7, 0xc4, 0xc4, 0x38, 0x25, 0x33, 0x59, 0x2c, 0xec, 0x99, 0xa6, 0x5b, 0x6b, 0x35)
  const P21 := Vec(0x1e, 0x29, 0xcf, 0x39, 0x20, 0x29, 0x84, 0x65, 0xb3, 0xd5, 0xe3, 0xfd, 0xb6, 0xaf, 0x69, 0xbd)
  const P22 := Vec(0xd2, 0x00, 0xd0, 0x45, 0x5c, 0x00, 0xf6, 0x5f, 0x30, 0x8e, 0xcd, 0xf0, 0x7d, 0x40, 0x9f, 0x07)
  const P23 := Vec(0x0b, 0x40, 0xcb, 0x8d, 0x0d, 0xe2, 0x96, 0x15, 0x7e, 0x6f, 0x71, 0xc6, 0x85, 0xc5, 0xda, 0xfa)
  const P24 := Vec(0x5a, 0x79, 0x25, 0x01, 0x7b, 0x9f, 0xdd, 0x3e, 0xd7, 0x2a, 0x91, 0xa2, 0x22, 0x86, 0xf9, 0x84)
  const P25 := Vec(0x51, 0xe6, 0x40, 0x75, 0x7e, 0x87, 0x45, 0xde, 0x70, 0x57, 0x27, 0x26, 0x5a, 0x00, 0x98, 0xb1)
  const P26 := Vec(0xf1, 0xf4, 0xd1, 0xa1, 0x95, 0xfd, 0x4a, 0xbe, 0x76, 0xe8, 0xe5, 0xf8, 0xdc, 0x4e, 0xe7, 0x6d)
  const P27 := Vec(0x83, 0x99, 0x35, 0xdd, 0x5c, 0x07, 0xc1, 0xa8, 0x93, 0x85, 0x81, 0xec, 0x55, 0x26, 0x1a, 0x78)
  const P28 := Vec(0xec, 0x10, 0x7f, 0x87, 0x57, 0x66, 0xcf, 0xb2, 0xad, 0x50, 0x74, 0x5b, 0xe4, 0xde, 0xa1, 0x5b)
  const P29 := Vec(0xa0, 0x7e, 0x16, 0x8d, 0x62, 0x1d, 0x59, 0xfc, 0x47, 0x47, 0x42, 0xc4, 0x97, 0x01, 0x1b, 0x33)
  const P30 := Vec(0x52, 0x40, 0x5f, 0x0f, 0x6d, 0x2f, 0x54, 0x31, 0xa1, 0x4f, 0x2b, 0x61, 0x43, 0xd1, 0xbb, 0x8c)
  const P31 := Vec(0x51, 0x35, 0x2f, 0x91, 0x95, 0xe7, 0x6d, 0xeb, 0xd4, 0xb3, 0x6c, 0x6c, 0xc2, 0x26, 0x50, 0xe2)
  const P32 := Vec(0x72, 0xe9, 0xdd, 0x74, 0x16, 0xbc, 0xf4, 0x5b, 0x75, 0x5d, 0xba, 0xa8, 0x8e, 0x4a, 0x40, 0x43)
  const P33 := Vec(0xbb, 0x44, 0xe2, 0x53, 0x78, 0xc7, 0x31, 0x23, 0xa5, 0xf3, 0x2f, 0x73, 0xcd, 0xb6, 0xe5, 0x17)

  // Each step: after the substitution, and after the linear layer.

  const S1 := Vec(0x09, 0x98, 0xca, 0x37, 0xa7, 0x94, 0x7a, 0xab, 0xb7, 0x8f, 0x4a, 0x5a, 0xe8, 0x1b, 0x74, 0x8a)
  const Y1 := Vec(0x3d, 0x09, 0x40, 0x99, 0x9d, 0xb7, 0x5d, 0x6a, 0x92, 0x57, 0x07, 0x1d, 0x5e, 0x61, 0x44, 0xa6)
  const S2 := Vec(0xc1, 0x0e, 0x99, 0x2b, 0xae, 0x3d, 0x50, 0x37, 0x1c, 0xed, 0xc2, 0x13, 0x26, 0xee, 0x96, 0xa2)
  const Y2 := Vec(0xbf, 0xee, 0xdd, 0xf3, 0x29, 0xb9, 0xbd, 0xc8, 0x7d, 0x4f, 0x04, 0x1e, 0xd4, 0xc5, 0x59, 0xf0)
  const S3 := Vec(0xa8, 0x0e, 0xe5, 0x85, 0x70, 0x69, 0xd8, 0x7f, 0x28, 0xa0, 0x65, 0xcd, 0xe3, 0x61, 0xeb, 0x3e)
  const Y3 := Vec(0x3a, 0x3f, 0x1f, 0xf3, 0x70, 0xcb, 0x7a, 0x99, 0x8c, 0x65, 0xee, 0x27, 0x4b, 0xe3, 0x72, 0x48)
  const S4 := Vec(0x24, 0x21, 0x63, 0x66, 0xcb, 0xe4, 0xd3, 0x48, 0x1a, 0x22, 0xcd, 0xcd, 0xb2, 0xc3, 0x6c, 0x6e)
  const Y4 := Vec(0xde, 0xf7, 0x7f, 0xde, 0x66, 0xb4, 0x5e, 0x7c, 0x9e, 0x23, 0xf5, 0x6e, 0xd6, 0x09, 0x86, 0x08)
  const S5 := Vec(0x39, 0x52, 0x7b, 0x52, 0x4e, 0x80, 0x9c, 0x76, 0xc4, 0x1d, 0x61, 0xdb, 0x91, 0xf2, 0x06, 0xd6)
  const Y5 := Vec(0x4e, 0x57, 0x95, 0x5e, 0x71, 0x6c, 0x75, 0x92, 0x50, 0x5f, 0x12, 0x4e, 0x1f, 0x75, 0x0b, 0x05)
  const S6 := Vec(0xe9, 0xc0, 0xc9, 0x51, 0x34, 0xa0, 0x3b, 0xc7, 0x2c, 0x4e, 0x55, 0x3d, 0xfb, 0xb3, 0x04, 0xdd)
  const Y6 := Vec(0xf3, 0xc6, 0xe2, 0x8a, 0x75, 0x1c, 0xdf, 0x7d, 0xa5, 0x0f, 0x54, 0x9c, 0xd5, 0x64, 0x40, 0xfb)
  const S7 := Vec(0x49, 0x26, 0x6f, 0xf5, 0x84, 0xc0, 0x7e, 0xdc, 0x99, 0xc9, 0x02, 0x41, 0xac, 0x5b, 0xde, 0x3d)
  const Y7 := Vec(0x8a, 0xf8, 0x23, 0x74, 0x03, 0x8b, 0x8c, 0x19, 0x5a, 0xa5, 0x13, 0xd7, 0x89, 0xc3, 0x0d, 0x00)
  const S8 := Vec(0xe4, 0x14, 0x7b, 0xe7, 0x4d, 0x6b, 0xa5, 0x71, 0x8c, 0xe9, 0x23, 0xea, 0x01, 0x6a, 0xfe, 0x23)
  const Y8 := Vec(0xc1, 0x77, 0xa2, 0x4f, 0xe3, 0xa5, 0x91, 0x75, 0x64, 0xff, 0xed, 0x30, 0x1f, 0x3a, 0x75, 0x30)
  const S9 := Vec(0x51, 0x6b, 0xfb, 0xa0, 0x4a, 0xe2, 0xb1, 0x19, 0x83, 0x70, 0x8a, 0x57, 0x8a, 0x9b, 0x02, 0x3a)
  const Y9 := Vec(0xa2, 0x94, 0x46, 0x9a, 0x77, 0x93, 0x56, 0x06, 0x38, 0x38, 0x3f, 0x72, 0x61, 0x97, 0x74, 0x56)
  const S10 := Vec(0x5e, 0x4d, 0x89, 0xad, 0xa7, 0x37, 0x17, 0x08, 0xed, 0x9a, 0xd6, 0x99, 0x6a, 0x91, 0xf2, 0xbf)
  const Y10 := Vec(0x42, 0x03, 0xf7, 0x2c, 0x8f, 0x9f, 0x6c, 0x81, 0xcc, 0xd9, 0xf5, 0x70, 0xd9, 0x50, 0x4f, 0x1f)
  const S11 := Vec(0xd8, 0xce, 0xdb, 0xb6, 0x30, 0x42, 0xc0, 0xeb, 0x1e, 0x1d, 0xed, 0x4f, 0xf8, 0x19, 0xb0, 0xb5)
  const Y11 := Vec(0xdb, 0x27, 0x57, 0xd0, 0x0e, 0x36, 0x0e, 0x80, 0xc8, 0x87, 0x94, 0x2e, 0xb9, 0x38, 0x75, 0x45)
  const S12 := Vec(0x37, 0x96, 0xb1, 0x03, 0x6e, 0x7c, 0x37, 0xb3, 0xb6, 0xae, 0x99, 0xbf, 0x16, 0x89, 0x40, 0xbb)
  const Y12 := Vec(0xd8, 0xf8, 0x86, 0xe1, 0x84, 0xf4, 0x46, 0xda, 0x78, 0x52, 0x7f, 0x4a, 0x9f, 0xab, 0x1b, 0xd6)
  const S13 := Vec(0x60, 0x39, 0x96, 0xa6, 0x5b, 0x64, 0xb2, 0x7c, 0x1b, 0x48, 0x3a, 0x6e, 0xb3, 0xab, 0x3d, 0xdf)
  const Y13 := Vec(0x6a, 0x20, 0x50, 0x50, 0xaf, 0x2e, 0xed, 0xde, 0x0a, 0x36, 0xd7, 0xc1, 0x37, 0x14, 0x31, 0x26)
  const S14 := Vec(0x57, 0xac, 0x49, 0x98, 0x19, 0x02, 0xe1, 0x41, 0xcc, 0xa2, 0x6d, 0xa3, 0x2a, 0xe9, 0x36, 0x1f)
  const Y14 := Vec(0x8b, 0x7b, 0x01, 0x43, 0x80, 0xa8, 0xc5, 0x30, 0x92, 0x09, 0x7b, 0x7e, 0xa0, 0x3e, 0xf1, 0xb9)
  const S15 := Vec(0xf4, 0xfc, 0x03, 0x76, 0x3b, 0x7a, 0x87, 0x4d, 0x66, 0xee, 0x03, 0x47, 0xbb, 0x46, 0x91, 0x98)
  const Y15 := Vec(0x93, 0xd1, 0x86, 0xf7, 0x29, 0x18, 0x3d, 0x02, 0x5a, 0x50, 0x39, 0x71, 0xd1, 0xfe, 0x95, 0x2a)
  const S16 := Vec(0xec, 0x5e, 0xd1, 0x36, 0x36, 0x76, 0x30, 0xa4, 0x8b, 0x16, 0x91, 0xd0, 0xc6, 0x3a, 0x23, 0xda)
  const Y16 := Vec(0x9d, 0xd5, 0x5c, 0xb5, 0x5a, 0xe0, 0xf2, 0x00, 0xd7, 0xea, 0x09, 0xed, 0x9e, 0x2b, 0xd8, 0x98)
  const S17 := Vec(0x99, 0xff, 0x0d, 0x8f, 0x44, 0xfb, 0xd7, 0x34, 0xba, 0xc0, 0x26, 0x94, 0xc7, 0xed, 0x84, 0xd5)
  const Y17 := Vec(0xe5, 0x74, 0xb3, 0xd7, 0xca, 0x3c, 0xcc, 0x60, 0x92, 0x6f, 0x7b, 0xc8, 0x65, 0x58, 0xb3, 0x47)
  const S18 := Vec(0x82, 0x48, 0x44, 0x3c, 0xda, 0xaf, 0x59, 0x05, 0xcf, 0xef, 0x82, 0x11, 0x9a, 0x85, 0x08, 0xce)
  const Y18 := Vec(0xb3, 0xc8, 0x17, 0x37, 0xe7, 0xbd, 0x01, 0xa3, 0x9b, 0x39, 0x97, 0xba, 0xc3, 0xed, 0xb6, 0xd5)
  const S19 := Vec(0x54, 0x98, 0xa8, 0x2b, 0xdc, 0x5c, 0xbd, 0x70, 0x8f, 0xdf, 0xdf, 0x4d, 0xd8, 0x14, 0x9d, 0x78)
  const Y19 := Vec(0x69, 0x5e, 0xd0, 0x26, 0x18, 0x58, 0x8d, 0x61, 0x7e, 0x71, 0x7f, 0x79, 0xf7, 0xd9, 0x80, 0x69)
  const S20 := Vec(0x7b, 0x0e, 0xdf, 0xa4, 0x8c, 0x1b, 0x60, 0xab, 0x7e, 0xa8, 0xca, 0xf1, 0xf1, 0xe8, 0x3c, 0x18)
  const Y20 := Vec(0xfa, 0x85, 0xbc, 0x66, 0x03, 0xde, 0xdb, 0xee, 0xfb, 0x09, 0xe6, 0x01, 0x81, 0x6b, 0x2e, 0xc4)
  const S21 := Vec(0xe2, 0xe6, 0xe7, 0x9d, 0x05, 0xd7, 0x54, 0xb8, 0x07, 0x47, 0xb2, 0xb2, 0xfe, 0x9b, 0x69, 0x1a)
  const Y21 := Vec(0xe3, 0x2d, 0x27, 0x81, 0x98, 0x38, 0xd3, 0x6c, 0x69, 0xa2, 0x21, 0x69, 0xdb, 0x1b, 0xf4, 0x32)
  const S22 := Vec(0x13, 0xd1, 0xa2, 0x43, 0xd1, 0x54, 0xa8, 0xdc, 0x1e, 0x91, 0xea, 0x56, 0x8c, 0x2a, 0x6a, 0x77)
  const Y22 := Vec(0x15, 0x69, 0x04, 0xb4, 0x2d, 0xcb, 0x12, 0x70, 0xcd, 0xba, 0x92, 0x3b, 0x33, 0x6a, 0xb3, 0x47)
  const S23 := Vec(0xe5, 0xf1, 0xef, 0x7f, 0xac, 0x49, 0x4a, 0x78, 0x2f, 0x41, 0xc8, 0x35, 0x33, 0xf2, 0x2d, 0xe5)
  const Y23 := Vec(0x88, 0x79, 0xf5, 0x44, 0x27, 0x9f, 0x2b, 0x61, 0xe7, 0xa4, 0x5c, 0x52, 0x5f, 0xc6, 0x66, 0x83)
  const S24 := Vec(0xa9, 0xec, 0x57, 0x98, 0xec, 0xe0, 0x21, 0x9a, 0xa4, 0x2d, 0x45, 0x71, 0xa2, 0x7d, 0xc9, 0x4e)
  const Y24 := Vec(0x5a, 0xa6, 0x8b, 0xf8, 0x73, 0x65, 0xd3, 0xcb, 0x0e, 0x38, 0x56, 0xe0, 0xdf, 0xc5, 0x42, 0x4b)
  const S25 := Vec(0x09, 0x41, 0x9d, 0xd4, 0xc2, 0x07, 0xac, 0xd3, 0x36, 0x95, 0xa5, 0x35, 0x6c, 0xa3, 0x19, 0x1a)
  const Y25 := Vec(0xab, 0x8d, 0xf4, 0xa0, 0xee, 0x62, 0x97, 0x80, 0xa1, 0xc2, 0x74, 0x5a, 0xfe, 0xc8, 0x1e, 0xe9)
  const S26 := Vec(0xe6, 0xdc, 0xc7, 0x57, 0x1e, 0x96, 0xea, 0x0c, 0xd1, 0xf3, 0xc3, 0x50, 0x88, 0x8c, 0x19, 0x7e)
  const Y26 := Vec(0xd2, 0x7f, 0x75, 0xa8, 0x22, 0x80, 0x84, 0x76, 0xe3, 0xd2, 0xa6, 0xca, 0x0f, 0x26, 0x82, 0xc9)
  const S27 := Vec(0xcb, 0x12, 0xf4, 0x75, 0xee, 0xe1, 0x5e, 0xc2, 0xeb, 0x65, 0x00, 0x4a, 0xdc, 0x08, 0xbb, 0x29)
  const Y27 := Vec(0x1d, 0xe4, 0xae, 0x26, 0xc2, 0x9b, 0x85, 0x0c, 0xdb, 0xb8, 0x91, 0xa3, 0x38, 0x90, 0x46, 0x36)
  const S28 := Vec(0xce, 0x8f, 0xd3, 0x55, 0xd9, 0xd6, 0x5f, 0xcc, 0x8e, 0xdd, 0x2b, 0xbf, 0x57, 0x55, 0x6b, 0xab)
  const Y28 := Vec(0x23, 0xe7, 0x23, 0x50, 0x3e, 0x1a, 0x98, 0x54, 0xd4, 0xc2, 0xc3, 0x28, 0xc2, 0x27, 0x01, 0x4b)
  const S29 := Vec(0x9d, 0xaf, 0x18, 0xe7, 0x7a, 0xa3, 0x74, 0xa3, 0xe8, 0x02, 0xb2, 0xfe, 0x1b, 0xe5, 0x2d, 0x8e)
  const Y29 := Vec(0xbe, 0x50, 0x20, 0x88, 0x3a, 0x49, 0x9b, 0x83, 0x0c, 0x1f, 0x5f, 0x3a, 0xa7, 0x0f, 0x1a, 0xd7)
  const S30 := Vec(0x8b, 0x71, 0x74, 0xaa, 0x4f, 0x56, 0x75, 0x57, 0xdc, 0x56, 0x11, 0x2c, 0x97, 0x19, 0x98, 0xec)
  const Y30 := Vec(0xf1, 0x4b, 0x39, 0x1c, 0xf7, 0xfa, 0x34, 0x17, 0x93, 0xf4, 0x2e, 0xa8, 0x55, 0x27, 0x4b, 0xd1)
  const S31 := Vec(0x34, 0x8f, 0xe6, 0x8f, 0x7d, 0x49, 0x02, 0xcd, 0xad, 0xd7, 0x66, 0x87, 0x4b, 0xee, 0xea, 0x4b)
  const Y31 := Vec(0x20, 0xa9, 0x82, 0x7b, 0x7b, 0x93, 0xa0, 0x6a, 0xd4, 0x12, 0x91, 0xc9, 0xcd, 0x9b, 0xfb, 0xcf)
  const S32 := Vec(0x8b, 0xce, 0x6e, 0x8b, 0xfb, 0x1a, 0xb1, 0xed, 0x3e, 0xa0, 0x80, 0xe5, 0xf0, 0x44, 0xcb, 0x29)
  const Y32 := Vec(0xea, 0x71, 0xcd, 0xc2, 0xed, 0x20, 0x5c, 0xc8, 0x71, 0x40, 0x43, 0x1f, 0x0f, 0x90, 0xb5, 0xf5)

  lemma Halves()
    ensures Split(KEY) == KeyPair(Of(P1), Of(P0))
  {
    hide Of;
    Bytes16(P1);
    Bytes16(P0);
  }

  lemma NoStep(p: KeyPair)
    ensures Steps(p, 0) == p
  {
  }

  lemma OneStep(p: KeyPair, n: nat, q: KeyPair, r: KeyPair)
    requires n < 32 && Steps(p, n) == q && F(q, n) == r
    ensures Steps(p, n + 1) == r
  {
    hide F;
  }

  lemma Layer1()
    ensures SLayer(Xor(Of(P1), Of(C1))) == Of(S1)
  {
    hide Of, SLayer, Xor;
    LayerOf(C1, P1, XorVec(P1, C1), S1);
  }

  lemma Step1()
    ensures Steps(Split(KEY), 1) == KeyPair(Of(P2), Of(P1))
  {
    hide Steps, F, C, L, Of, SLayer, Xor, Split;
    Halves();
    NoStep(Split(KEY));
    Constant1();
    Layer1();
    FeistelOf(0, C1, P1, P0, S1, Y1, P2);
    OneStep(Split(KEY), 0, KeyPair(Of(P1), Of(P0)), KeyPair(Of(P2), Of(P1)));
  }

  lemma Layer2()
    ensures SLayer(Xor(Of(P2), Of(C2))) == Of(S2)
  {
    hide Of, SLayer, Xor;
    LayerOf(C2, P2, XorVec(P2, C2), S2);
  }

  lemma Step2()
    ensures Steps(Split(KEY), 2) == KeyPair(Of(P3), Of(P2))
  {
    hide Steps, F, C, L, Of, SLayer, Xor, Split;
    Step1();
    Constant2();
    Layer2();
    FeistelOf(1, C2, P2, P1, S2, Y2, P3);
    OneStep(Split(KEY), 1, KeyPair(Of(P2), Of(P1)), KeyPair(Of(P3), Of(P2)));
  }

  lemma Layer3()
    ensures SLayer(Xor(Of(P3), Of(C3))) == Of(S3)
  {
    hide Of, SLayer, Xor;
    LayerOf(C3, P3, XorVec(P3, C3), S3);
  }

  lemma Step3()
    ensures Steps(Split(KEY), 3) == KeyPair(Of(P4), Of(P3))
  {
    hide Steps, F, C, L, Of, SLayer, Xor, Split;
    Step2();
    Constant3();
    Layer3();
    FeistelOf(2, C3, P3, P2, S3, Y3, P4);
    OneStep(Split(KEY), 2, KeyPair(Of(P3), Of(P2)), KeyPair(Of(P4), Of(P3)));
  }

  lemma Layer4()
    ensures SLayer(Xor(Of(P4), Of(C4))) == Of(S4)
  {
    hide Of, SLayer, Xor;
    LayerOf(C4, P4, XorVec(P4, C4), S4);
  }

  lemma Step4()
    ensures Steps(Split(KEY), 4) == KeyPair(Of(P5), Of(P4))
  {
    hide Steps, F, C, L, Of, SLayer, Xor, Split;
    Step3();
    Constant4();
    Layer4();
    FeistelOf(3, C4, P4, P3, S4, Y4, P5);
    OneStep(Split(KEY), 3, KeyPair(Of(P4), Of(P3)), KeyPair(Of(P5), Of(P4)));
  }

  lemma Layer5()
    ensures SLayer(Xor(Of(P5), Of(C5))) == Of(S5)
  {
    hide Of, SLayer, Xor;
    LayerOf(C5, P5, XorVec(P5, C5), S5);
  }

  lemma Step5()
    ensures Steps(Split(KEY), 5) == KeyPair(Of(P6), Of(P5))
  {
    hide Steps, F, C, L, Of, SLayer, Xor, Split;
    Step4();
    Constant5();
    Layer5();
    FeistelOf(4, C5, P5, P4, S5, Y5, P6);
    OneStep(Split(KEY), 4, KeyPair(Of(P5), Of(P4)), KeyPair(Of(P6), Of(P5)));
  }

  lemma Layer6()
    ensures SLayer(Xor(Of(P6), Of(C6))) == Of(S6)
  {
    hide Of, SLayer, Xor;
    LayerOf(C6, P6, XorVec(P6, C6), S6);
  }

  lemma Step6()
    ensures Steps(Split(KEY), 6) == KeyPair(Of(P7), Of(P6))
  {
    hide Steps, F, C, L, Of, SLayer, Xor, Split;
    Step5();
    Constant6();
    Layer6();
    FeistelOf(5, C6, P6, P5, S6, Y6, P7);
    OneStep(Split(KEY), 5, KeyPair(Of(P6), Of(P5)), KeyPair(Of(P7), Of(P6)));
  }

  lemma Layer7()
    ensures SLayer(Xor(Of(P7), Of(C7))) == Of(S7)
  {
    hide Of, SLayer, Xor;
    LayerOf(C7, P7, XorVec(P7, C7), S7);
  }

  lemma Step7()
    ensures Steps(Split(KEY), 7) == KeyPair(Of(P8), Of(P7))
  {
    hide Steps, F, C, L, Of, SLayer, Xor, Split;
    Step6();
    Constant7();
    Layer7();
    FeistelOf(6, C7, P7, P6, S7, Y7, P8);
    OneStep(Split(KEY), 6, KeyPair(Of(P7), Of(P6)), KeyPair(Of(P8), Of(P7)));
  }

  lemma Layer8()
    ensures SLayer(Xor(Of(P8), Of(C8))) == Of(S8)
  {
    hide Of, SLayer, Xor;
    LayerOf(C8, P8, XorVec(P8, C8), S8);
  }

  lemma Step8()
    ensures Steps(Split(KEY), 8) == KeyPair(Of(P9), Of(P8))
  {
    hide Steps, F, C, L, Of, SLayer, Xor, Split;
    Step7();
    Constant8();
    Layer8();
    FeistelOf(7, C8, P8, P7, S8, Y8, P9);
    OneStep(Split(KEY), 7, KeyPair(Of(P8), Of(P7)), KeyPair(Of(P9), Of(P8)));
  }

  lemma Layer9()
    ensures SLayer(Xor(Of(P9), Of(C9))) == Of(S9)
  {
    hide Of, SLayer, Xor;
    LayerOf(C9, P9, XorVec(P9, C9), S9);
  }

  lemma Step9()
    ensures Steps(Split(KEY), 9) == KeyPair(Of(P10), Of(P9))
  {
    hide Steps, F, C, L, Of, SLayer, Xor, Split;
    Step8();
    Constant9();
    Layer9();
    FeistelOf(8, C9, P9, P8, S9, Y9, P10);
    OneStep(Split(KEY), 8, KeyPair(Of(P9), Of(P8)), KeyPair(Of(P10), Of(P9)));
  }

  lemma Layer10()
    ensures SLayer(Xor(Of(P10), Of(C10))) == Of(S10)
  {
    hide Of, SLayer, Xor;
    LayerOf(C10, P10, XorVec(P10, C10), S10);
  }

  lemma Step10()
    ensures Steps(Split(KEY), 10) == KeyPair(Of(P11), Of(P10))
  {
    hide Steps, F, C, L, Of, SLayer, Xor, Split;
    Step9();
    Constant10();
    Layer10();
    FeistelOf(9, C10, P10, P9, S10, Y10, P11);
    OneStep(Split(KEY), 9, KeyPair(Of(P10), Of(P9)), KeyPair(Of(P11), Of(P10)));
  }

  lemma Layer11()
    ensures SLayer(Xor(Of(P11), Of(C11))) == Of(S11)
  {
    hide Of, SLayer, Xor;
    LayerOf(C11, P11, XorVec(P11, C11), S11);
  }

  lemma Step11()
    ensures Steps(Split(KEY), 11) == KeyPair(Of(P12), Of(P11))
  {
    hide Steps, F, C, L, Of, SLayer, Xor, Split;
    Step10();
    Constant11();
    Layer11();
    FeistelOf(10, C11, P11, P10, S11, Y11, P12);
    OneStep(Split(KEY), 10, KeyPair(Of(P11), Of(P10)), KeyPair(Of(P12), Of(P11)));
  }

  lemma Layer12()
    ensures SLayer(Xor(Of(P12), Of(C12))) == Of(S12)
  {
    hide Of, SLayer, Xor;
    LayerOf(C12, P12, XorVec(P12, C12), S12);
  }

  lemma Step12()
    ensures Steps(Split(KEY), 12) == KeyPair(Of(P13), Of(P12))
  {
    hide Steps, F, C, L, Of, SLayer, Xor, Split;
    Step11();
    Constant12();
    Layer12();
    FeistelOf(11, C12, P12, P11, S12, Y12, P13);
    OneStep(Split(KEY), 11, KeyPair(Of(P12), Of(P11)), KeyPair(Of(P13), Of(P12)));
  }

  lemma Layer13()
    ensures SLayer(Xor(Of(P13), Of(C13))) == Of(S13)
  {
    hide Of, SLayer, Xor;
    LayerOf(C13, P13, XorVec(P13, C13), S13);
  }

  lemma Step13()
    ensures Steps(Split(KEY), 13) == KeyPair(Of(P14), Of(P13))
  {
    hide Steps, F, C, L, Of, SLayer, Xor, Split;
    Step12();
    Constant13();
    Layer13();
    FeistelOf(12, C13, P13, P12, S13, Y13, P14);
    OneStep(Split(KEY), 12, KeyPair(Of(P13), Of(P12)), KeyPair(Of(P14), Of(P13)));
  }

  lemma Layer14()
    ensures SLayer(Xor(Of(P14), Of(C14))) == Of(S14)
  {
    hide Of, SLayer, Xor;
    LayerOf(C14, P14, XorVec(P14, C14), S14);
  }

  lemma Step14()
    ensures Steps(Split(KEY), 14) == KeyPair(Of(P15), Of(P14))
  {
    hide Steps, F, C, L, Of, SLayer, Xor, Split;
    Step13();
    Constant14();
    Layer14();
    FeistelOf(13, C14, P14, P13, S14, Y14, P15);
    OneStep(Split(KEY), 13, KeyPair(Of(P14), Of(P13)), KeyPair(Of(P15), Of(P14)));
  }

  lemma Layer15()
    ensures SLayer(Xor(Of(P15), Of(C15))) == Of(S15)
  {
    hide Of, SLayer, Xor;
    LayerOf(C15, P15, XorVec(P15, C15), S15);
  }

  lemma Step15()
    ensures Steps(Split(KEY), 15) == KeyPair(Of(P16), Of(P15))
  {
    hide Steps, F, C, L, Of, SLayer, Xor, Split;
    Step14();
    Constant15();
    Layer15();
    FeistelOf(14, C15, P15, P14, S15, Y15, P16);
    OneStep(Split(KEY), 14, KeyPair(Of(P15), Of(P14)), KeyPair(Of(P16), Of(P15)));
  }

  lemma Layer16()
    ensures SLayer(Xor(Of(P16), Of(C16))) == Of(S16)
  {
    hide Of, SLayer, Xor;
    LayerOf(C16, P16, XorVec(P16, C16), S16);
  }

  lemma Step16()
    ensures Steps(Split(KEY), 16) == KeyPair(Of(P17), Of(P16))
  {
    hide Steps, F, C, L, Of, SLayer, Xor, Split;
    Step15();
    Constant16();
    Layer16();
    FeistelOf(15, C16, P16, P15, S16, Y16, P17);
    OneStep(Split(KEY), 15, KeyPair(Of(P16), Of(P15)), KeyPair(Of(P17), Of(P16)));
  }

  lemma Layer17()
    ensures SLayer(Xor(Of(P17), Of(C17))) == Of(S17)
  {
    hide Of, SLayer, Xor;
    LayerOf(C17, P17, XorVec(P17, C17), S17);
  }

  lemma Step17()
    ensures Steps(Split(KEY), 17) == KeyPair(Of(P18), Of(P17))
  {
    hide Steps, F, C, L, Of, SLayer, Xor, Split;
    Step16();
    Constant17();
    Layer17();
    FeistelOf(16, C17, P17, P16, S17, Y17, P18);
    OneStep(Split(KEY), 16, KeyPair(Of(P17), Of(P16)), KeyPair(Of(P18), Of(P17)));
  }

  lemma Layer18()
    ensures SLayer(Xor(Of(P18), Of(C18))) == Of(S18)
  {
    hide Of, SLayer, Xor;
    LayerOf(C18, P18, XorVec(P18, C18), S18);
  }

  lemma Step18()
    ensures Steps(Split(KEY), 18) == KeyPair(Of(P19), Of(P18))
  {
    hide Steps, F, C, L, Of, SLayer, Xor, Split;
    Step17();
    Constant18();
    Layer18();
    FeistelOf(17, C18, P18, P17, S18, Y18, P19);
    OneStep(Split(KEY), 17, KeyPair(Of(P18), Of(P17)), KeyPair(Of(P19), Of(P18)));
  }

  lemma Layer19()
    ensures SLayer(Xor(Of(P19), Of(C19))) == Of(S19)
  {
    hide Of, SLayer, Xor;
    LayerOf(C19, P19, XorVec(P19, C19), S19);
  }

  lemma Step19()
    ensures Steps(Split(KEY), 19) == KeyPair(Of(P20), Of(P19))
  {
    hide Steps, F, C, L, Of, SLayer, Xor, Split;
    Step18();
    Constant19();
    Layer19();
    FeistelOf(18, C19, P19, P18, S19, Y19, P20);
    OneStep(Split(KEY), 18, KeyPair(Of(P19), Of(P18)), KeyPair(Of(P20), Of(P19)));
  }

  lemma Layer20()
    ensures SLayer(Xor(Of(P20), Of(C20))) == Of(S20)
  {
    hide Of, SLayer, Xor;
    LayerOf(C20, P20, XorVec(P20, C20), S20);
  }

  lemma Step20()
    ensures Steps(Split(KEY), 20) == KeyPair(Of(P21), Of(P20))
  {
    hide Steps, F, C, L, Of, SLayer, Xor, Split;
    Step19();
    Constant20();
    Layer20();
    FeistelOf(19, C20, P20, P19, S20, Y20, P21);
    OneStep(Split(KEY), 19, KeyPair(Of(P20), Of(P19)), KeyPair(Of(P21), Of(P20)));
  }

  lemma Layer21()
    ensures SLayer(Xor(Of(P21), Of(C21))) == Of(S21)
  {
    hide Of, SLayer, Xor;
    LayerOf(C21, P21, XorVec(P21, C21), S21);
  }

  lemma Step21()
    ensures Steps(Split(KEY), 21) == KeyPair(Of(P22), Of(P21))
  {
    hide Steps, F, C, L, Of, SLayer, Xor, Split;
    Step20();
    Constant21();
    Layer21();
    FeistelOf(20, C21, P21, P20, S21, Y21, P22);
    OneStep(Split(KEY), 20, KeyPair(Of(P21), Of(P20)), KeyPair(Of(P22), Of(P21)));
  }

  lemma Layer22()
    ensures SLayer(Xor(Of(P22), Of(C22))) == Of(S22)
  {
    hide Of, SLayer, Xor;
    LayerOf(C22, P22, XorVec(P22, C22), S22);
  }

  lemma Step22()
    ensures Steps(Split(KEY), 22) == KeyPair(Of(P23), Of(P22))
  {
    hide Steps, F, C, L, Of, SLayer, Xor, Split;
    Step21();
    Constant22();
    Layer22();
    FeistelOf(21, C22, P22, P21, S22, Y22, P23);
    OneStep(Split(KEY), 21, KeyPair(Of(P22), Of(P21)), KeyPair(Of(P23), Of(P22)));
  }

  lemma Layer23()
    ensures SLayer(Xor(Of(P23), Of(C23))) == Of(S23)
  {
    hide Of, SLayer, Xor;
    LayerOf(C23, P23, XorVec(P23, C23), S23);
  }

  lemma Step23()
    ensures Steps(Split(KEY), 23) == KeyPair(Of(P24), Of(P23))
  {
    hide Steps, F, C, L, Of, SLayer, Xor, Split;
    Step22();
    Constant23();
    Layer23();
    FeistelOf(22, C23, P23, P22, S23, Y23, P24);
    OneStep(Split(KEY), 22, KeyPair(Of(P23), Of(P22)), KeyPair(Of(P24), Of(P23)));
  }

  lemma Layer24()
    ensures SLayer(Xor(Of(P24), Of(C24))) == Of(S24)
  {
    hide Of, SLayer, Xor;
    LayerOf(C24, P24, XorVec(P24, C24), S24);
  }

  lemma Step24()
    ensures Steps(Split(KEY), 24) == KeyPair(Of(P25), Of(P24))
  {
    hide Steps, F, C, L, Of, SLayer, Xor, Split;
    Step23();
    Constant24();
    Layer24();
    FeistelOf(23, C24, P24, P23, S24, Y24, P25);
    OneStep(Split(KEY), 23, KeyPair(Of(P24), Of(P23)), KeyPair(Of(P25), Of(P24)));
  }

  lemma Layer25()
    ensures SLayer(Xor(Of(P25), Of(C25))) == Of(S25)
  {
    hide Of, SLayer, Xor;
    LayerOf(C25, P25, XorVec(P25, C25), S25);
  }

  lemma Step25()
    ensures Steps(Split(KEY), 25) == KeyPair(Of(P26), Of(P25))
  {
    hide Steps, F, C, L, Of, SLayer, Xor, Split;
    Step24();
    Constant25();
    Layer25();
    FeistelOf(24, C25, P25, P24, S25, Y25, P26);
    OneStep(Split(KEY), 24, KeyPair(Of(P25), Of(P24)), KeyPair(Of(P26), Of(P25)));
  }

  lemma Layer26()
    ensures SLayer(Xor(Of(P26), Of(C26))) == Of(S26)
  {
    hide Of, SLayer, Xor;
    LayerOf(C26, P26, XorVec(P26, C26), S26);
  }

  lemma Step26()
    ensures Steps(Split(KEY), 26) == KeyPair(Of(P27), Of(P26))
  {
    hide Steps, F, C, L, Of, SLayer, Xor, Split;
    Step25();
    Constant26();
    Layer26();
    FeistelOf(25, C26, P26, P25, S26, Y26, P27);
    OneStep(Split(KEY), 25, KeyPair(Of(P26), Of(P25)), KeyPair(Of(P27), Of(P26)));
  }

  lemma Layer27()
    ensures SLayer(Xor(Of(P27), Of(C27))) == Of(S27)
  {
    hide Of, SLayer, Xor;
    LayerOf(C27, P27, XorVec(P27, C27), S27);
  }

  lemma Step27()
    ensures Steps(Split(KEY), 27) == KeyPair(Of(P28), Of(P27))
  {
    hide Steps, F, C, L, Of, SLayer, Xor, Split;
    Step26();
    Constant27();
    Layer27();
    FeistelOf(26, C27, P27, P26, S27, Y27, P28);
    OneStep(Split(KEY), 26, KeyPair(Of(P27), Of(P26)), KeyPair(Of(P28), Of(P27)));
  }

  lemma Layer28()
    ensures SLayer(Xor(Of(P28), Of(C28))) == Of(S28)
  {
    hide Of, SLayer, Xor;
    LayerOf(C28, P28, XorVec(P28, C28), S28);
  }

  lemma Step28()
    ensures Steps(Split(KEY), 28) == KeyPair(Of(P29), Of(P28))
  {
    hide Steps, F, C, L, Of, SLayer, Xor, Split;
    Step27();
    Constant28();
    Layer28();
    FeistelOf(27, C28, P28, P27, S28, Y28, P29);
    OneStep(Split(KEY), 27, KeyPair(Of(P28), Of(P27)), KeyPair(Of(P29), Of(P28)));
  }

  lemma Layer29()
    ensures SLayer(Xor(Of(P29), Of(C29))) == Of(S29)
  {
    hide Of, SLayer, Xor;
    LayerOf(C29, P29, XorVec(P29, C29), S29);
  }

  lemma Step29()
    ensures Steps(Split(KEY), 29) == KeyPair(Of(P30), Of(P29))
  {
    hide Steps, F, C, L, Of, SLayer, Xor, Split;
    Step28();
    Constant29();
    Layer29();
    FeistelOf(28, C29, P29, P28, S29, Y29, P30);
    OneStep(Split(KEY), 28, KeyPair(Of(P29), Of(P28)), KeyPair(Of(P30), Of(P29)));
  }

  lemma Layer30()
    ensures SLayer(Xor(Of(P30), Of(C30))) == Of(S30)
  {
    hide Of, SLayer, Xor;
    LayerOf(C30, P30, XorVec(P30, C30), S30);
  }

  lemma Step30()
    ensures Steps(Split(KEY), 30) == KeyPair(Of(P31), Of(P30))
  {
    hide Steps, F, C, L, Of, SLayer, Xor, Split;
    Step29();
    Constant30();
    Layer30();
    FeistelOf(29, C30, P30, P29, S30, Y30, P31);
    OneStep(Split(KEY), 29, KeyPair(Of(P30), Of(P29)), KeyPair(Of(P31), Of(P30)));
  }

  lemma Layer31()
    ensures SLayer(Xor(Of(P31), Of(C31))) == Of(S31)
  {
    hide Of, SLayer, Xor;
    LayerOf(C31, P31, XorVec(P31, C31), S31);
  }

  lemma Step31()
    ensures Steps(Split(KEY), 31) == KeyPair(Of(P32), Of(P31))
  {
    hide Steps, F, C, L, Of, SLayer, Xor, Split;
    Step30();
    Constant31();
    Layer31();
    FeistelOf(30, C31, P31, P30, S31, Y31, P32);
    OneStep(Split(KEY), 30, KeyPair(Of(P31), Of(P30)), KeyPair(Of(P32), Of(P31)));
  }

  lemma Layer32()
    ensures SLayer(Xor(Of(P32), Of(C32))) == Of(S32)
  {
    hide Of, SLayer, Xor;
    LayerOf(C32, P32, XorVec(P32, C32), S32);
  }

  lemma Step32()
    ensures Steps(Split(KEY), 32) == KeyPair(Of(P33), Of(P32))
  {
    hide Steps, F, C, L, Of, SLayer, Xor, Split;
    Step31();
    Constant32();
    Layer32();
    FeistelOf(31, C32, P32, P31, S32, Y32, P33);
    OneStep(Split(KEY), 31, KeyPair(Of(P32), Of(P31)), KeyPair(Of(P33), Of(P32)));
  }
}
