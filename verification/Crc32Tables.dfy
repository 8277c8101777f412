/**
 The two constant tables of `crc32.c`, sixteen entries to a row: `CrcTab` for little-endian and
 `CrcTabBig` for big-endian machines.
 */
module Crc32Tables {
  function CrcTabRow0(i: bv8): bv32 {
    match i
    case 0 => 0x00000000 case 1 => 0x77073096 case 2 => 0xee0e612c case 3 => 0x990951ba
    case 4 => 0x076dc419 case 5 => 0x706af48f case 6 => 0xe963a535 case 7 => 0x9e6495a3
    case 8 => 0x0edb8832 case 9 => 0x79dcb8a4 case 10 => 0xe0d5e91e case 11 => 0x97d2d988
    case 12 => 0x09b64c2b case 13 => 0x7eb17cbd case 14 => 0xe7b82d07 case _ => 0x90bf1d91
  }

  function CrcTabRow1(i: bv8): bv32 {
    match i
    case 0 => 0x1db71064 case 1 => 0x6ab020f2 case 2 => 0xf3b97148 case 3 => 0x84be41de
    case 4 => 0x1adad47d case 5 => 0x6ddde4eb case 6 => 0xf4d4b551 case 7 => 0x83d385c7
    case 8 => 0x136c9856 case 9 => 0x646ba8c0 case 10 => 0xfd62f97a case 11 => 0x8a65c9ec
    case 12 => 0x14015c4f case 13 => 0x63066cd9 case 14 => 0xfa0f3d63 case _ => 0x8d080df5
  }

  function CrcTabRow2(i: bv8): bv32 {
    match i
    case 0 => 0x3b6e20c8 case 1 => 0x4c69105e case 2 => 0xd56041e4 case 3 => 0xa2677172
    case 4 => 0x3c03e4d1 case 5 => 0x4b04d447 case 6 => 0xd20d85fd case 7 => 0xa50ab56b
    case 8 => 0x35b5a8fa case 9 => 0x42b2986c case 10 => 0xdbbbc9d6 case 11 => 0xacbcf940
    case 12 => 0x32d86ce3 case 13 => 0x45df5c75 case 14 => 0xdcd60dcf case _ => 0xabd13d59
  }

  function CrcTabRow3(i: bv8): bv32 {
    match i
    case 0 => 0x26d930ac case 1 => 0x51de003a case 2 => 0xc8d75180 case 3 => 0xbfd06116
    case 4 => 0x21b4f4b5 case 5 => 0x56b3c423 case 6 => 0xcfba9599 case 7 => 0xb8bda50f
    case 8 => 0x2802b89e case 9 => 0x5f058808 case 10 => 0xc60cd9b2 case 11 => 0xb10be924
    case 12 => 0x2f6f7c87 case 13 => 0x58684c11 case 14 => 0xc1611dab case _ => 0xb6662d3d
  }

  function CrcTabRow4(i: bv8): bv32 {
    match i
    case 0 => 0x76dc4190 case 1 => 0x01db7106 case 2 => 0x98d220bc case 3 => 0xefd5102a
    case 4 => 0x71b18589 case 5 => 0x06b6b51f case 6 => 0x9fbfe4a5 case 7 => 0xe8b8d433
    case 8 => 0x7807c9a2 case 9 => 0x0f00f934 case 10 => 0x9609a88e case 11 => 0xe10e9818
    case 12 => 0x7f6a0dbb case 13 => 0x086d3d2d case 14 => 0x91646c97 case _ => 0xe6635c01
  }

  function CrcTabRow5(i: bv8): bv32 {
    match i
    case 0 => 0x6b6b51f4 case 1 => 0x1c6c6162 case 2 => 0x856530d8 case 3 => 0xf262004e
    case 4 => 0x6c0695ed case 5 => 0x1b01a57b case 6 => 0x8208f4c1 case 7 => 0xf50fc457
    case 8 => 0x65b0d9c6 case 9 => 0x12b7e950 case 10 => 0x8bbeb8ea case 11 => 0xfcb9887c
    case 12 => 0x62dd1ddf case 13 => 0x15da2d49 case 14 => 0x8cd37cf3 case _ => 0xfbd44c65
  }

  function CrcTabRow6(i: bv8): bv32 {
    match i
    case 0 => 0x4db26158 case 1 => 0x3ab551ce case 2 => 0xa3bc0074 case 3 => 0xd4bb30e2
    case 4 => 0x4adfa541 case 5 => 0x3dd895d7 case 6 => 0xa4d1c46d case 7 => 0xd3d6f4fb
    case 8 => 0x4369e96a case 9 => 0x346ed9fc case 10 => 0xad678846 case 11 => 0xda60b8d0
    case 12 => 0x44042d73 case 13 => 0x33031de5 case 14 => 0xaa0a4c5f case _ => 0xdd0d7cc9
  }

  function CrcTabRow7(i: bv8): bv32 {
    match i
    case 0 => 0x5005713c case 1 => 0x270241aa case 2 => 0xbe0b1010 case 3 => 0xc90c2086
    case 4 => 0x5768b525 case 5 => 0x206f85b3 case 6 => 0xb966d409 case 7 => 0xce61e49f
    case 8 => 0x5edef90e case 9 => 0x29d9c998 case 10 => 0xb0d09822 case 11 => 0xc7d7a8b4
    case 12 => 0x59b33d17 case 13 => 0x2eb40d81 case 14 => 0xb7bd5c3b case _ => 0xc0ba6cad
  }

  function CrcTabRow8(i: bv8): bv32 {
    match i
    case 0 => 0xedb88320 case 1 => 0x9abfb3b6 case 2 => 0x03b6e20c case 3 => 0x74b1d29a
    case 4 => 0xead54739 case 5 => 0x9dd277af case 6 => 0x04db2615 case 7 => 0x73dc1683
    case 8 => 0xe3630b12 case 9 => 0x94643b84 case 10 => 0x0d6d6a3e case 11 => 0x7a6a5aa8
    case 12 => 0xe40ecf0b case 13 => 0x9309ff9d case 14 => 0x0a00ae27 case _ => 0x7d079eb1
  }

  function CrcTabRow9(i: bv8): bv32 {
    match i
    case 0 => 0xf00f9344 case 1 => 0x8708a3d2 case 2 => 0x1e01f268 case 3 => 0x6906c2fe
    case 4 => 0xf762575d case 5 => 0x806567cb case 6 => 0x196c3671 case 7 => 0x6e6b06e7
    case 8 => 0xfed41b76 case 9 => 0x89d32be0 case 10 => 0x10da7a5a case 11 => 0x67dd4acc
    case 12 => 0xf9b9df6f case 13 => 0x8ebeeff9 case 14 => 0x17b7be43 case _ => 0x60b08ed5
  }

  function CrcTabRowA(i: bv8): bv32 {
    match i
    case 0 => 0xd6d6a3e8 case 1 => 0xa1d1937e case 2 => 0x38d8c2c4 case 3 => 0x4fdff252
    case 4 => 0xd1bb67f1 case 5 => 0xa6bc5767 case 6 => 0x3fb506dd case 7 => 0x48b2364b
    case 8 => 0xd80d2bda case 9 => 0xaf0a1b4c case 10 => 0x36034af6 case 11 => 0x41047a60
    case 12 => 0xdf60efc3 case 13 => 0xa867df55 case 14 => 0x316e8eef case _ => 0x4669be79
  }

  function CrcTabRowB(i: bv8): bv32 {
    match i
    case 0 => 0xcb61b38c case 1 => 0xbc66831a case 2 => 0x256fd2a0 case 3 => 0x5268e236
    case 4 => 0xcc0c7795 case 5 => 0xbb0b4703 case 6 => 0x220216b9 case 7 => 0x5505262f
    case 8 => 0xc5ba3bbe case 9 => 0xb2bd0b28 case 10 => 0x2bb45a92 case 11 => 0x5cb36a04
    case 12 => 0xc2d7ffa7 case 13 => 0xb5d0cf31 case 14 => 0x2cd99e8b case _ => 0x5bdeae1d
  }

  function CrcTabRowC(i: bv8): bv32 {
    match i
    case 0 => 0x9b64c2b0 case 1 => 0xec63f226 case 2 => 0x756aa39c case 3 => 0x026d930a
    case 4 => 0x9c0906a9 case 5 => 0xeb0e363f case 6 => 0x72076785 case 7 => 0x05005713
    case 8 => 0x95bf4a82 case 9 => 0xe2b87a14 case 10 => 0x7bb12bae case 11 => 0x0cb61b38
    case 12 => 0x92d28e9b case 13 => 0xe5d5be0d case 14 => 0x7cdcefb7 case _ => 0x0bdbdf21
  }

  function CrcTabRowD(i: bv8): bv32 {
    match i
    case 0 => 0x86d3d2d4 case 1 => 0xf1d4e242 case 2 => 0x68ddb3f8 case 3 => 0x1fda836e
    case 4 => 0x81be16cd case 5 => 0xf6b9265b case 6 => 0x6fb077e1 case 7 => 0x18b74777
    case 8 => 0x88085ae6 case 9 => 0xff0f6a70 case 10 => 0x66063bca case 11 => 0x11010b5c
    case 12 => 0x8f659eff case 13 => 0xf862ae69 case 14 => 0x616bffd3 case _ => 0x166ccf45
  }

  function CrcTabRowE(i: bv8): bv32 {
    match i
    case 0 => 0xa00ae278 case 1 => 0xd70dd2ee case 2 => 0x4e048354 case 3 => 0x3903b3c2
    case 4 => 0xa7672661 case 5 => 0xd06016f7 case 6 => 0x4969474d case 7 => 0x3e6e77db
    case 8 => 0xaed16a4a case 9 => 0xd9d65adc case 10 => 0x40df0b66 case 11 => 0x37d83bf0
    case 12 => 0xa9bcae53 case 13 => 0xdebb9ec5 case 14 => 0x47b2cf7f case _ => 0x30b5ffe9
  }

  function CrcTabRowF(i: bv8): bv32 {
    match i
    case 0 => 0xbdbdf21c case 1 => 0xcabac28a case 2 => 0x53b39330 case 3 => 0x24b4a3a6
    case 4 => 0xbad03605 case 5 => 0xcdd70693 case 6 => 0x54de5729 case 7 => 0x23d967bf
    case 8 => 0xb3667a2e case 9 => 0xc4614ab8 case 10 => 0x5d681b02 case 11 => 0x2a6f2b94
    case 12 => 0xb40bbe37 case 13 => 0xc30c8ea1 case 14 => 0x5a05df1b case _ => 0x2d02ef8d
  }

  function CrcTab(i: bv8): bv32 {
    var low := i & 0xf;
    match i >> 4
    case 0 => CrcTabRow0(low)
    case 1 => CrcTabRow1(low)
    case 2 => CrcTabRow2(low)
    case 3 => CrcTabRow3(low)
    case 4 => CrcTabRow4(low)
    case 5 => CrcTabRow5(low)
    case 6 => CrcTabRow6(low)
    case 7 => CrcTabRow7(low)
    case 8 => CrcTabRow8(low)
    case 9 => CrcTabRow9(low)
    case 10 => CrcTabRowA(low)
    case 11 => CrcTabRowB(low)
    case 12 => CrcTabRowC(low)
    case 13 => CrcTabRowD(low)
    case 14 => CrcTabRowE(low)
    case _ => CrcTabRowF(low)
  }

  function CrcTabBigRow0(i: bv8): bv32 {
    match i
    case 0 => 0x00000000 case 1 => 0x96300777 case 2 => 0x2c610eee case 3 => 0xba510999
    case 4 => 0x19c46d07 case 5 => 0x8ff46a70 case 6 => 0x35a563e9 case 7 => 0xa395649e
    case 8 => 0x3288db0e case 9 => 0xa4b8dc79 case 10 => 0x1ee9d5e0 case 11 => 0x88d9d297
    case 12 => 0x2b4cb609 case 13 => 0xbd7cb17e case 14 => 0x072db8e7 case _ => 0x911dbf90
  }

  function CrcTabBigRow1(i: bv8): bv32 {
    match i
    case 0 => 0x6410b71d case 1 => 0xf220b06a case 2 => 0x4871b9f3 case 3 => 0xde41be84
    case 4 => 0x7dd4da1a case 5 => 0xebe4dd6d case 6 => 0x51b5d4f4 case 7 => 0xc785d383
    case 8 => 0x56986c13 case 9 => 0xc0a86b64 case 10 => 0x7af962fd case 11 => 0xecc9658a
    case 12 => 0x4f5c0114 case 13 => 0xd96c0663 case 14 => 0x633d0ffa case _ => 0xf50d088d
  }

  function CrcTabBigRow2(i: bv8): bv32 {
    match i
    case 0 => 0xc8206e3b case 1 => 0x5e10694c case 2 => 0xe44160d5 case 3 => 0x727167a2
    case 4 => 0xd1e4033c case 5 => 0x47d4044b case 6 => 0xfd850dd2 case 7 => 0x6bb50aa5
    case 8 => 0xfaa8b535 case 9 => 0x6c98b242 case 10 => 0xd6c9bbdb case 11 => 0x40f9bcac
    case 12 => 0xe36cd832 case 13 => 0x755cdf45 case 14 => 0xcf0dd6dc case _ => 0x593dd1ab
  }

  function CrcTabBigRow3(i: bv8): bv32 {
    match i
    case 0 => 0xac30d926 case 1 => 0x3a00de51 case 2 => 0x8051d7c8 case 3 => 0x1661d0bf
    case 4 => 0xb5f4b421 case 5 => 0x23c4b356 case 6 => 0x9995bacf case 7 => 0x0fa5bdb8
    case 8 => 0x9eb80228 case 9 => 0x0888055f case 10 => 0xb2d90cc6 case 11 => 0x24e90bb1
    case 12 => 0x877c6f2f case 13 => 0x114c6858 case 14 => 0xab1d61c1 case _ => 0x3d2d66b6
  }

  function CrcTabBigRow4(i: bv8): bv32 {
    match i
    case 0 => 0x9041dc76 case 1 => 0x0671db01 case 2 => 0xbc20d298 case 3 => 0x2a10d5ef
    case 4 => 0x8985b171 case 5 => 0x1fb5b606 case 6 => 0xa5e4bf9f case 7 => 0x33d4b8e8
    case 8 => 0xa2c90778 case 9 => 0x34f9000f case 10 => 0x8ea80996 case 11 => 0x18980ee1
    case 12 => 0xbb0d6a7f case 13 => 0x2d3d6d08 case 14 => 0x976c6491 case _ => 0x015c63e6
  }

  function CrcTabBigRow5(i: bv8): bv32 {
    match i
    case 0 => 0xf4516b6b case 1 => 0x62616c1c case 2 => 0xd8306585 case 3 => 0x4e0062f2
    case 4 => 0xed95066c case 5 => 0x7ba5011b case 6 => 0xc1f40882 case 7 => 0x57c40ff5
    case 8 => 0xc6d9b065 case 9 => 0x50e9b712 case 10 => 0xeab8be8b case 11 => 0x7c88b9fc
    case 12 => 0xdf1ddd62 case 13 => 0x492dda15 case 14 => 0xf37cd38c case _ => 0x654cd4fb
  }

  function CrcTabBigRow6(i: bv8): bv32 {
    match i
    case 0 => 0x5861b24d case 1 => 0xce51b53a case 2 => 0x7400bca3 case 3 => 0xe230bbd4
    case 4 => 0x41a5df4a case 5 => 0xd795d83d case 6 => 0x6dc4d1a4 case 7 => 0xfbf4d6d3
    case 8 => 0x6ae96943 case 9 => 0xfcd96e34 case 10 => 0x468867ad case 11 => 0xd0b860da
    case 12 => 0x732d0444 case 13 => 0xe51d0333 case 14 => 0x5f4c0aaa case _ => 0xc97c0ddd
  }

  function CrcTabBigRow7(i: bv8): bv32 {
    match i
    case 0 => 0x3c710550 case 1 => 0xaa410227 case 2 => 0x10100bbe case 3 => 0x86200cc9
    case 4 => 0x25b56857 case 5 => 0xb3856f20 case 6 => 0x09d466b9 case 7 => 0x9fe461ce
    case 8 => 0x0ef9de5e case 9 => 0x98c9d929 case 10 => 0x2298d0b0 case 11 => 0xb4a8d7c7
    case 12 => 0x173db359 case 13 => 0x810db42e case 14 => 0x3b5cbdb7 case _ => 0xad6cbac0
  }

  function CrcTabBigRow8(i: bv8): bv32 {
    match i
    case 0 => 0x2083b8ed case 1 => 0xb6b3bf9a case 2 => 0x0ce2b603 case 3 => 0x9ad2b174
    case 4 => 0x3947d5ea case 5 => 0xaf77d29d case 6 => 0x1526db04 case 7 => 0x8316dc73
    case 8 => 0x120b63e3 case 9 => 0x843b6494 case 10 => 0x3e6a6d0d case 11 => 0xa85a6a7a
    case 12 => 0x0bcf0ee4 case 13 => 0x9dff0993 case 14 => 0x27ae000a case _ => 0xb19e077d
  }

  function CrcTabBigRow9(i: bv8): bv32 {
    match i
    case 0 => 0x44930ff0 case 1 => 0xd2a30887 case 2 => 0x68f2011e case 3 => 0xfec20669
    case 4 => 0x5d5762f7 case 5 => 0xcb676580 case 6 => 0x71366c19 case 7 => 0xe7066b6e
    case 8 => 0x761bd4fe case 9 => 0xe02bd389 case 10 => 0x5a7ada10 case 11 => 0xcc4add67
    case 12 => 0x6fdfb9f9 case 13 => 0xf9efbe8e case 14 => 0x43beb717 case _ => 0xd58eb060
  }

  function CrcTabBigRowA(i: bv8): bv32 {
    match i
    case 0 => 0xe8a3d6d6 case 1 => 0x7e93d1a1 case 2 => 0xc4c2d838 case 3 => 0x52f2df4f
    case 4 => 0xf167bbd1 case 5 => 0x6757bca6 case 6 => 0xdd06b53f case 7 => 0x4b36b248
    case 8 => 0xda2b0dd8 case 9 => 0x4c1b0aaf case 10 => 0xf64a0336 case 11 => 0x607a0441
    case 12 => 0xc3ef60df case 13 => 0x55df67a8 case 14 => 0xef8e6e31 case _ => 0x79be6946
  }

  function CrcTabBigRowB(i: bv8): bv32 {
    match i
    case 0 => 0x8cb361cb case 1 => 0x1a8366bc case 2 => 0xa0d26f25 case 3 => 0x36e26852
    case 4 => 0x95770ccc case 5 => 0x03470bbb case 6 => 0xb9160222 case 7 => 0x2f260555
    case 8 => 0xbe3bbac5 case 9 => 0x280bbdb2 case 10 => 0x925ab42b case 11 => 0x046ab35c
    case 12 => 0xa7ffd7c2 case 13 => 0x31cfd0b5 case 14 => 0x8b9ed92c case _ => 0x1daede5b
  }

  function CrcTabBigRowC(i: bv8): bv32 {
    match i
    case 0 => 0xb0c2649b case 1 => 0x26f263ec case 2 => 0x9ca36a75 case 3 => 0x0a936d02
    case 4 => 0xa906099c case 5 => 0x3f360eeb case 6 => 0x85670772 case 7 => 0x13570005
    case 8 => 0x824abf95 case 9 => 0x147ab8e2 case 10 => 0xae2bb17b case 11 => 0x381bb60c
    case 12 => 0x9b8ed292 case 13 => 0x0dbed5e5 case 14 => 0xb7efdc7c case _ => 0x21dfdb0b
  }

  function CrcTabBigRowD(i: bv8): bv32 {
    match i
    case 0 => 0xd4d2d386 case 1 => 0x42e2d4f1 case 2 => 0xf8b3dd68 case 3 => 0x6e83da1f
    case 4 => 0xcd16be81 case 5 => 0x5b26b9f6 case 6 => 0xe177b06f case 7 => 0x7747b718
    case 8 => 0xe65a0888 case 9 => 0x706a0fff case 10 => 0xca3b0666 case 11 => 0x5c0b0111
    case 12 => 0xff9e658f case 13 => 0x69ae62f8 case 14 => 0xd3ff6b61 case _ => 0x45cf6c16
  }

  function CrcTabBigRowE(i: bv8): bv32 {
    match i
    case 0 => 0x78e20aa0 case 1 => 0xeed20dd7 case 2 => 0x5483044e case 3 => 0xc2b30339
    case 4 => 0x612667a7 case 5 => 0xf71660d0 case 6 => 0x4d476949 case 7 => 0xdb776e3e
    case 8 => 0x4a6ad1ae case 9 => 0xdc5ad6d9 case 10 => 0x660bdf40 case 11 => 0xf03bd837
    case 12 => 0x53aebca9 case 13 => 0xc59ebbde case 14 => 0x7fcfb247 case _ => 0xe9ffb530
  }

  function CrcTabBigRowF(i: bv8): bv32 {
    match i
    case 0 => 0x1cf2bdbd case 1 => 0x8ac2baca case 2 => 0x3093b353 case 3 => 0xa6a3b424
    case 4 => 0x0536d0ba case 5 => 0x9306d7cd case 6 => 0x2957de54 case 7 => 0xbf67d923
    case 8 => 0x2e7a66b3 case 9 => 0xb84a61c4 case 10 => 0x021b685d case 11 => 0x942b6f2a
    case 12 => 0x37be0bb4 case 13 => 0xa18e0cc3 case 14 => 0x1bdf055a case _ => 0x8def022d
  }

  function CrcTabBig(i: bv8): bv32 {
    var low := i & 0xf;
    match i >> 4
    case 0 => CrcTabBigRow0(low)
    case 1 => CrcTabBigRow1(low)
    case 2 => CrcTabBigRow2(low)
    case 3 => CrcTabBigRow3(low)
    case 4 => CrcTabBigRow4(low)
    case 5 => CrcTabBigRow5(low)
    case 6 => CrcTabBigRow6(low)
    case 7 => CrcTabBigRow7(low)
    case 8 => CrcTabBigRow8(low)
    case 9 => CrcTabBigRow9(low)
    case 10 => CrcTabBigRowA(low)
    case 11 => CrcTabBigRowB(low)
    case 12 => CrcTabBigRowC(low)
    case 13 => CrcTabBigRowD(low)
    case 14 => CrcTabBigRowE(low)
    case _ => CrcTabBigRowF(low)
  }
}
