/** The code of RFC 7541, appendix B: the table that the encoder and the decoder use has
    every property that the results about them ask of a table. */
module HuffmanTable {
  import opened Basics
  import opened FixedWidth
  import opened BitStrings
  import opened Huffman
  import opened HuffmanDecoding

  /** One past the greatest code word of a length; twice that is the first word one bit
      longer, so no word begins with a shorter one. */
  function End(nbits: nat): nat {
    match nbits
    case 5 => 10 case 6 => 46 case 7 => 124 case 8 => 254 case 9 => 508 case 10 => 1021 case 11 => 2045
    case 12 => 4092 case 13 => 8190 case 14 => 16382 case 15 => 32767 case 16 => 65534 case 17 => 131068
    case 18 => 262136 case 19 => 524275 case 20 => 1048558 case 21 => 2097129 case 22 => 4194284
    case 23 => 8388597 case 24 => 16777206 case 25 => 33554416 case 26 => 67108847 case 27 => 134217713
    case 28 => 268435455 case 29 => 536870910 case 30 => 1073741824
    case _ => 0
  }

  /** The symbol of the i-th code word of a length. */
  function SymbolAt(nbits: nat, i: int): nat {
    match nbits
    case 5 =>
      (match i
       case 0 => 48 case 1 => 49 case 2 => 50 case 3 => 97 case 4 => 99 case 5 => 101 case 6 => 105
       case 7 => 111 case 8 => 115 case 9 => 116 case _ => 257)
    case 6 =>
      (match i
       case 0 => 32 case 1 => 37 case 2 => 45 case 3 => 46 case 4 => 47 case 5 => 51 case 6 => 52 case 7 => 53
       case 8 => 54 case 9 => 55 case 10 => 56 case 11 => 57 case 12 => 61 case 13 => 65 case 14 => 95
       case 15 => 98 case 16 => 100 case 17 => 102 case 18 => 103 case 19 => 104 case 20 => 108 case 21 => 109
       case 22 => 110 case 23 => 112 case 24 => 114 case 25 => 117 case _ => 257)
    case 7 =>
      (match i
       case 0 => 58 case 1 => 66 case 2 => 67 case 3 => 68 case 4 => 69 case 5 => 70 case 6 => 71 case 7 => 72
       case 8 => 73 case 9 => 74 case 10 => 75 case 11 => 76 case 12 => 77 case 13 => 78 case 14 => 79
       case 15 => 80 case 16 => 81 case 17 => 82 case 18 => 83 case 19 => 84 case 20 => 85 case 21 => 86
       case 22 => 87 case 23 => 89 case 24 => 106 case 25 => 107 case 26 => 113 case 27 => 118 case 28 => 119
       case 29 => 120 case 30 => 121 case 31 => 122 case _ => 257)
    case 8 =>
      (match i
       case 0 => 38 case 1 => 42 case 2 => 44 case 3 => 59 case 4 => 88 case 5 => 90 case _ => 257)
    case 10 =>
      (match i
       case 0 => 33 case 1 => 34 case 2 => 40 case 3 => 41 case 4 => 63 case _ => 257)
    case 11 =>
      (match i
       case 0 => 39 case 1 => 43 case 2 => 124 case _ => 257)
    case 12 =>
      (match i
       case 0 => 35 case 1 => 62 case _ => 257)
    case 13 =>
      (match i
       case 0 => 0 case 1 => 36 case 2 => 64 case 3 => 91 case 4 => 93 case 5 => 126 case _ => 257)
    case 14 =>
      (match i
       case 0 => 94 case 1 => 125 case _ => 257)
    case 15 =>
      (match i
       case 0 => 60 case 1 => 96 case 2 => 123 case _ => 257)
    case 19 =>
      (match i
       case 0 => 92 case 1 => 195 case 2 => 208 case _ => 257)
    case 20 =>
      (match i
       case 0 => 128 case 1 => 130 case 2 => 131 case 3 => 162 case 4 => 184 case 5 => 194 case 6 => 224
       case 7 => 226 case _ => 257)
    case 21 =>
      (match i
       case 0 => 153 case 1 => 161 case 2 => 167 case 3 => 172 case 4 => 176 case 5 => 177 case 6 => 179
       case 7 => 209 case 8 => 216 case 9 => 217 case 10 => 227 case 11 => 229 case 12 => 230 case _ => 257)
    case 22 =>
      (match i
       case 0 => 129 case 1 => 132 case 2 => 133 case 3 => 134 case 4 => 136 case 5 => 146 case 6 => 154
       case 7 => 156 case 8 => 160 case 9 => 163 case 10 => 164 case 11 => 169 case 12 => 170 case 13 => 173
       case 14 => 178 case 15 => 181 case 16 => 185 case 17 => 186 case 18 => 187 case 19 => 189 case 20 => 190
       case 21 => 196 case 22 => 198 case 23 => 228 case 24 => 232 case 25 => 233 case _ => 257)
    case 23 =>
      (match i
       case 0 => 1 case 1 => 135 case 2 => 137 case 3 => 138 case 4 => 139 case 5 => 140 case 6 => 141
       case 7 => 143 case 8 => 147 case 9 => 149 case 10 => 150 case 11 => 151 case 12 => 152 case 13 => 155
       case 14 => 157 case 15 => 158 case 16 => 165 case 17 => 166 case 18 => 168 case 19 => 174 case 20 => 175
       case 21 => 180 case 22 => 182 case 23 => 183 case 24 => 188 case 25 => 191 case 26 => 197 case 27 => 231
       case 28 => 239 case _ => 257)
    case 24 =>
      (match i
       case 0 => 9 case 1 => 142 case 2 => 144 case 3 => 145 case 4 => 148 case 5 => 159 case 6 => 171
       case 7 => 206 case 8 => 215 case 9 => 225 case 10 => 236 case 11 => 237 case _ => 257)
    case 25 =>
      (match i
       case 0 => 199 case 1 => 207 case 2 => 234 case 3 => 235 case _ => 257)
    case 26 =>
      (match i
       case 0 => 192 case 1 => 193 case 2 => 200 case 3 => 201 case 4 => 202 case 5 => 205 case 6 => 210
       case 7 => 213 case 8 => 218 case 9 => 219 case 10 => 238 case 11 => 240 case 12 => 242 case 13 => 243
       case 14 => 255 case _ => 257)
    case 27 =>
      (match i
       case 0 => 203 case 1 => 204 case 2 => 211 case 3 => 212 case 4 => 214 case 5 => 221 case 6 => 222
       case 7 => 223 case 8 => 241 case 9 => 244 case 10 => 245 case 11 => 246 case 12 => 247 case 13 => 248
       case 14 => 250 case 15 => 251 case 16 => 252 case 17 => 253 case 18 => 254 case _ => 257)
    case 28 =>
      (match i
       case 0 => 2 case 1 => 3 case 2 => 4 case 3 => 5 case 4 => 6 case 5 => 7 case 6 => 8 case 7 => 11
       case 8 => 12 case 9 => 14 case 10 => 15 case 11 => 16 case 12 => 17 case 13 => 18 case 14 => 19
       case 15 => 20 case 16 => 21 case 17 => 23 case 18 => 24 case 19 => 25 case 20 => 26 case 21 => 27
       case 22 => 28 case 23 => 29 case 24 => 30 case 25 => 31 case 26 => 127 case 27 => 220 case 28 => 249
       case _ => 257)
    case 30 =>
      (match i
       case 0 => 10 case 1 => 13 case 2 => 22 case 3 => 256 case _ => 257)
    case _ => 257
  }

  /** A word lies behind every shorter one. */
  predicate Behind(c: Code) {
    5 <= c.nbits <= 30 && 2 * End(c.nbits - 1) <= c.code < End(c.nbits)
  }

  /** And at its symbol's own place among those as long. */
  predicate Placed(c: Code, s: nat) {
    Behind(c) && SymbolAt(c.nbits, c.code - 2 * End(c.nbits - 1)) == s
  }

  function From0(s: nat): (c: Code)
    requires s < 32
    ensures Placed(c, s)
  {
    match s
    case 0 => Code(0x1ff8, 13) case 1 => Code(0x7fffd8, 23) case 2 => Code(0xfffffe2, 28)
    case 3 => Code(0xfffffe3, 28) case 4 => Code(0xfffffe4, 28) case 5 => Code(0xfffffe5, 28)
    case 6 => Code(0xfffffe6, 28) case 7 => Code(0xfffffe7, 28) case 8 => Code(0xfffffe8, 28)
    case 9 => Code(0xffffea, 24) case 10 => Code(0x3ffffffc, 30) case 11 => Code(0xfffffe9, 28)
    case 12 => Code(0xfffffea, 28) case 13 => Code(0x3ffffffd, 30) case 14 => Code(0xfffffeb, 28)
    case 15 => Code(0xfffffec, 28) case 16 => Code(0xfffffed, 28) case 17 => Code(0xfffffee, 28)
    case 18 => Code(0xfffffef, 28) case 19 => Code(0xffffff0, 28) case 20 => Code(0xffffff1, 28)
    case 21 => Code(0xffffff2, 28) case 22 => Code(0x3ffffffe, 30) case 23 => Code(0xffffff3, 28)
    case 24 => Code(0xffffff4, 28) case 25 => Code(0xffffff5, 28) case 26 => Code(0xffffff6, 28)
    case 27 => Code(0xffffff7, 28) case 28 => Code(0xffffff8, 28) case 29 => Code(0xffffff9, 28)
    case 30 => Code(0xffffffa, 28)
    case _ => Code(0xffffffb, 28)
  }

  function From32(s: nat): (c: Code)
    requires 32 <= s < 64
    ensures Placed(c, s)
  {
    match s
    case 32 => Code(0x14, 6) case 33 => Code(0x3f8, 10) case 34 => Code(0x3f9, 10) case 35 => Code(0xffa, 12)
    case 36 => Code(0x1ff9, 13) case 37 => Code(0x15, 6) case 38 => Code(0xf8, 8) case 39 => Code(0x7fa, 11)
    case 40 => Code(0x3fa, 10) case 41 => Code(0x3fb, 10) case 42 => Code(0xf9, 8) case 43 => Code(0x7fb, 11)
    case 44 => Code(0xfa, 8) case 45 => Code(0x16, 6) case 46 => Code(0x17, 6) case 47 => Code(0x18, 6)
    case 48 => Code(0x0, 5) case 49 => Code(0x1, 5) case 50 => Code(0x2, 5) case 51 => Code(0x19, 6)
    case 52 => Code(0x1a, 6) case 53 => Code(0x1b, 6) case 54 => Code(0x1c, 6) case 55 => Code(0x1d, 6)
    case 56 => Code(0x1e, 6) case 57 => Code(0x1f, 6) case 58 => Code(0x5c, 7) case 59 => Code(0xfb, 8)
    case 60 => Code(0x7ffc, 15) case 61 => Code(0x20, 6) case 62 => Code(0xffb, 12)
    case _ => Code(0x3fc, 10)
  }

  function From64(s: nat): (c: Code)
    requires 64 <= s < 96
    ensures Placed(c, s)
  {
    match s
    case 64 => Code(0x1ffa, 13) case 65 => Code(0x21, 6) case 66 => Code(0x5d, 7) case 67 => Code(0x5e, 7)
    case 68 => Code(0x5f, 7) case 69 => Code(0x60, 7) case 70 => Code(0x61, 7) case 71 => Code(0x62, 7)
    case 72 => Code(0x63, 7) case 73 => Code(0x64, 7) case 74 => Code(0x65, 7) case 75 => Code(0x66, 7)
    case 76 => Code(0x67, 7) case 77 => Code(0x68, 7) case 78 => Code(0x69, 7) case 79 => Code(0x6a, 7)
    case 80 => Code(0x6b, 7) case 81 => Code(0x6c, 7) case 82 => Code(0x6d, 7) case 83 => Code(0x6e, 7)
    case 84 => Code(0x6f, 7) case 85 => Code(0x70, 7) case 86 => Code(0x71, 7) case 87 => Code(0x72, 7)
    case 88 => Code(0xfc, 8) case 89 => Code(0x73, 7) case 90 => Code(0xfd, 8) case 91 => Code(0x1ffb, 13)
    case 92 => Code(0x7fff0, 19) case 93 => Code(0x1ffc, 13) case 94 => Code(0x3ffc, 14)
    case _ => Code(0x22, 6)
  }

  function From96(s: nat): (c: Code)
    requires 96 <= s < 128
    ensures Placed(c, s)
  {
    match s
    case 96 => Code(0x7ffd, 15) case 97 => Code(0x3, 5) case 98 => Code(0x23, 6) case 99 => Code(0x4, 5)
    case 100 => Code(0x24, 6) case 101 => Code(0x5, 5) case 102 => Code(0x25, 6) case 103 => Code(0x26, 6)
    case 104 => Code(0x27, 6) case 105 => Code(0x6, 5) case 106 => Code(0x74, 7) case 107 => Code(0x75, 7)
    case 108 => Code(0x28, 6) case 109 => Code(0x29, 6) case 110 => Code(0x2a, 6) case 111 => Code(0x7, 5)
    case 112 => Code(0x2b, 6) case 113 => Code(0x76, 7) case 114 => Code(0x2c, 6) case 115 => Code(0x8, 5)
    case 116 => Code(0x9, 5) case 117 => Code(0x2d, 6) case 118 => Code(0x77, 7) case 119 => Code(0x78, 7)
    case 120 => Code(0x79, 7) case 121 => Code(0x7a, 7) case 122 => Code(0x7b, 7) case 123 => Code(0x7ffe, 15)
    case 124 => Code(0x7fc, 11) case 125 => Code(0x3ffd, 14) case 126 => Code(0x1ffd, 13)
    case _ => Code(0xffffffc, 28)
  }

  function From128(s: nat): (c: Code)
    requires 128 <= s < 160
    ensures Placed(c, s)
  {
    match s
    case 128 => Code(0xfffe6, 20) case 129 => Code(0x3fffd2, 22) case 130 => Code(0xfffe7, 20)
    case 131 => Code(0xfffe8, 20) case 132 => Code(0x3fffd3, 22) case 133 => Code(0x3fffd4, 22)
    case 134 => Code(0x3fffd5, 22) case 135 => Code(0x7fffd9, 23) case 136 => Code(0x3fffd6, 22)
    case 137 => Code(0x7fffda, 23) case 138 => Code(0x7fffdb, 23) case 139 => Code(0x7fffdc, 23)
    case 140 => Code(0x7fffdd, 23) case 141 => Code(0x7fffde, 23) case 142 => Code(0xffffeb, 24)
    case 143 => Code(0x7fffdf, 23) case 144 => Code(0xffffec, 24) case 145 => Code(0xffffed, 24)
    case 146 => Code(0x3fffd7, 22) case 147 => Code(0x7fffe0, 23) case 148 => Code(0xffffee, 24)
    case 149 => Code(0x7fffe1, 23) case 150 => Code(0x7fffe2, 23) case 151 => Code(0x7fffe3, 23)
    case 152 => Code(0x7fffe4, 23) case 153 => Code(0x1fffdc, 21) case 154 => Code(0x3fffd8, 22)
    case 155 => Code(0x7fffe5, 23) case 156 => Code(0x3fffd9, 22) case 157 => Code(0x7fffe6, 23)
    case 158 => Code(0x7fffe7, 23)
    case _ => Code(0xffffef, 24)
  }

  function From160(s: nat): (c: Code)
    requires 160 <= s < 192
    ensures Placed(c, s)
  {
    match s
    case 160 => Code(0x3fffda, 22) case 161 => Code(0x1fffdd, 21) case 162 => Code(0xfffe9, 20)
    case 163 => Code(0x3fffdb, 22) case 164 => Code(0x3fffdc, 22) case 165 => Code(0x7fffe8, 23)
    case 166 => Code(0x7fffe9, 23) case 167 => Code(0x1fffde, 21) case 168 => Code(0x7fffea, 23)
    case 169 => Code(0x3fffdd, 22) case 170 => Code(0x3fffde, 22) case 171 => Code(0xfffff0, 24)
    case 172 => Code(0x1fffdf, 21) case 173 => Code(0x3fffdf, 22) case 174 => Code(0x7fffeb, 23)
    case 175 => Code(0x7fffec, 23) case 176 => Code(0x1fffe0, 21) case 177 => Code(0x1fffe1, 21)
    case 178 => Code(0x3fffe0, 22) case 179 => Code(0x1fffe2, 21) case 180 => Code(0x7fffed, 23)
    case 181 => Code(0x3fffe1, 22) case 182 => Code(0x7fffee, 23) case 183 => Code(0x7fffef, 23)
    case 184 => Code(0xfffea, 20) case 185 => Code(0x3fffe2, 22) case 186 => Code(0x3fffe3, 22)
    case 187 => Code(0x3fffe4, 22) case 188 => Code(0x7ffff0, 23) case 189 => Code(0x3fffe5, 22)
    case 190 => Code(0x3fffe6, 22)
    case _ => Code(0x7ffff1, 23)
  }

  function From192(s: nat): (c: Code)
    requires 192 <= s < 224
    ensures Placed(c, s)
  {
    match s
    case 192 => Code(0x3ffffe0, 26) case 193 => Code(0x3ffffe1, 26) case 194 => Code(0xfffeb, 20)
    case 195 => Code(0x7fff1, 19) case 196 => Code(0x3fffe7, 22) case 197 => Code(0x7ffff2, 23)
    case 198 => Code(0x3fffe8, 22) case 199 => Code(0x1ffffec, 25) case 200 => Code(0x3ffffe2, 26)
    case 201 => Code(0x3ffffe3, 26) case 202 => Code(0x3ffffe4, 26) case 203 => Code(0x7ffffde, 27)
    case 204 => Code(0x7ffffdf, 27) case 205 => Code(0x3ffffe5, 26) case 206 => Code(0xfffff1, 24)
    case 207 => Code(0x1ffffed, 25) case 208 => Code(0x7fff2, 19) case 209 => Code(0x1fffe3, 21)
    case 210 => Code(0x3ffffe6, 26) case 211 => Code(0x7ffffe0, 27) case 212 => Code(0x7ffffe1, 27)
    case 213 => Code(0x3ffffe7, 26) case 214 => Code(0x7ffffe2, 27) case 215 => Code(0xfffff2, 24)
    case 216 => Code(0x1fffe4, 21) case 217 => Code(0x1fffe5, 21) case 218 => Code(0x3ffffe8, 26)
    case 219 => Code(0x3ffffe9, 26) case 220 => Code(0xffffffd, 28) case 221 => Code(0x7ffffe3, 27)
    case 222 => Code(0x7ffffe4, 27)
    case _ => Code(0x7ffffe5, 27)
  }

  function From224(s: nat): (c: Code)
    requires 224 <= s < 256
    ensures Placed(c, s)
  {
    match s
    case 224 => Code(0xfffec, 20) case 225 => Code(0xfffff3, 24) case 226 => Code(0xfffed, 20)
    case 227 => Code(0x1fffe6, 21) case 228 => Code(0x3fffe9, 22) case 229 => Code(0x1fffe7, 21)
    case 230 => Code(0x1fffe8, 21) case 231 => Code(0x7ffff3, 23) case 232 => Code(0x3fffea, 22)
    case 233 => Code(0x3fffeb, 22) case 234 => Code(0x1ffffee, 25) case 235 => Code(0x1ffffef, 25)
    case 236 => Code(0xfffff4, 24) case 237 => Code(0xfffff5, 24) case 238 => Code(0x3ffffea, 26)
    case 239 => Code(0x7ffff4, 23) case 240 => Code(0x3ffffeb, 26) case 241 => Code(0x7ffffe6, 27)
    case 242 => Code(0x3ffffec, 26) case 243 => Code(0x3ffffed, 26) case 244 => Code(0x7ffffe7, 27)
    case 245 => Code(0x7ffffe8, 27) case 246 => Code(0x7ffffe9, 27) case 247 => Code(0x7ffffea, 27)
    case 248 => Code(0x7ffffeb, 27) case 249 => Code(0xffffffe, 28) case 250 => Code(0x7ffffec, 27)
    case 251 => Code(0x7ffffed, 27) case 252 => Code(0x7ffffee, 27) case 253 => Code(0x7ffffef, 27)
    case 254 => Code(0x7fffff0, 27)
    case _ => Code(0x3ffffee, 26)
  }

  /** The code word of each symbol. */
  function CodeOf(s: nat): (c: Code)
    requires s < 257
    ensures Placed(c, s)
  {
    if s < 32 then From0(s)
    else if s < 64 then From32(s)
    else if s < 96 then From64(s)
    else if s < 128 then From96(s)
    else if s < 160 then From128(s)
    else if s < 192 then From160(s)
    else if s < 224 then From192(s)
    else if s < 256 then From224(s)
    else Code(0x3fffffff, 30)
  }

  const RFC_TABLE: Table := seq(257, s requires 0 <= s < 257 => CodeOf(s))

  // ----------------------------------------------------------- free of prefixes

  lemma Pow2Thirty()
    ensures Pow2(30) == 0x4000_0000
  {
    assert Pow2(5) == 32;
    Pow2Sum(5, 5);
    Pow2Sum(10, 10);
    Pow2Sum(10, 20);
  }

  lemma {:induction false} WithinItsLength(nbits: nat)
    requires 5 <= nbits <= 30
    ensures End(nbits) <= Pow2(nbits)
    decreases 30 - nbits
  {
    if nbits < 30 {
      WithinItsLength(nbits + 1);
    } else {
      Pow2Thirty();
    }
  }

  /** What lies behind the words of one length lies behind all words of a shorter one. */
  lemma {:induction false} BehindShorter(n: nat, nbits: nat, shorter: nat)
    requires 5 <= shorter < nbits <= 30 && 2 * End(nbits - 1) <= n
    ensures End(shorter) * Pow2(nbits - shorter) <= n
    decreases nbits
  {
    if shorter + 1 < nbits {
      BehindShorter(End(nbits - 1), nbits - 1, shorter);
      Doubled(End(shorter), Pow2(nbits - 1 - shorter));
    }
  }

  lemma Doubled(a: nat, b: nat)
    ensures a * (2 * b) == 2 * (a * b)
  {
  }

  lemma TableIsSized()
    ensures Sized(RFC_TABLE)
  {
    forall s | 0 <= s < 257
      ensures 5 <= RFC_TABLE[s].nbits <= 30 && RFC_TABLE[s].code < Pow2(RFC_TABLE[s].nbits)
    {
      WithinItsLength(CodeOf(s).nbits);
    }
  }

  /** A word that begins with another has the other's value in its leading bits. */
  lemma PrefixLeads(x: Bits, y: Bits)
    requires |x| <= |y|
    ensures x <= y ==> Val(y) < (Val(x) + 1) * Pow2(|y| - |x|)
  {
    if x <= y {
      var rest := y[|x|..];
      assert y == x + rest;
      ValConcat(x, rest);
      ValBound(rest);
      OneMore(Val(x), Pow2(|rest|));
    }
  }

  lemma SameLength(x: Bits, y: Bits)
    requires |x| == |y| && Val(x) != Val(y)
    ensures !(x <= y)
  {
  }

  lemma OneMore(a: nat, k: nat)
    ensures (a + 1) * k == a * k + k
  {
  }

  lemma Below(a: nat, b: nat, k: nat)
    requires a <= b
    ensures a * k <= b * k
  {
  }

  lemma ShorterLeadsNone(c: Code, d: Code)
    requires 5 <= c.nbits < d.nbits <= 30 && c.code < End(c.nbits) && 2 * End(d.nbits - 1) <= d.code
    ensures (c.code + 1) * Pow2(d.nbits - c.nbits) <= d.code
  {
    BehindShorter(d.code, d.nbits, c.nbits);
    Below(c.code + 1, End(c.nbits), Pow2(d.nbits - c.nbits));
  }

  lemma ShorterApart(c: Code, d: Code)
    requires c.nbits < d.nbits && c.code < Pow2(c.nbits) && d.code < Pow2(d.nbits)
    requires (c.code + 1) * Pow2(d.nbits - c.nbits) <= d.code
    ensures !(BitsOf(c.code, c.nbits) <= BitsOf(d.code, d.nbits))
  {
    ValBitsOf(c.code, c.nbits);
    ValBitsOf(d.code, d.nbits);
    PrefixLeads(BitsOf(c.code, c.nbits), BitsOf(d.code, d.nbits));
  }

  lemma SameLengthApart(c: Code, d: Code)
    requires c.nbits == d.nbits && c.code != d.code && c.code < Pow2(c.nbits) && d.code < Pow2(d.nbits)
    ensures !(BitsOf(c.code, c.nbits) <= BitsOf(d.code, d.nbits))
  {
    ValBitsOf(c.code, c.nbits);
    ValBitsOf(d.code, d.nbits);
    SameLength(BitsOf(c.code, c.nbits), BitsOf(d.code, d.nbits));
  }

  /** Different words, each behind all that are shorter: neither begins with the other. */
  lemma Apart(c: Code, d: Code)
    requires c != d && Behind(c) && Behind(d)
    requires c.code < Pow2(c.nbits) && d.code < Pow2(d.nbits)
    ensures !(BitsOf(c.code, c.nbits) <= BitsOf(d.code, d.nbits))
  {
    if c.nbits < d.nbits {
      ShorterLeadsNone(c, d);
      ShorterApart(c, d);
    } else if c.nbits == d.nbits {
      SameLengthApart(c, d);
    }
  }

  // ------------------------------------------------------------------- main result

  lemma InPlace(s: nat)
    requires s < 257
    ensures Placed(RFC_TABLE[s], s)
  {
  }

  lemma Distinct(c: Code, i: nat, d: Code, j: nat)
    requires Placed(c, i) && Placed(d, j) && i != j
    ensures c != d
  {
  }

  lemma EndIsOnes()
    ensures RFC_TABLE[EOS] == Code(0x3fff_ffff, 30) && BitsOf(0x3fff_ffff, 30) == Ones(30)
  {
    Pow2Thirty();
    ValBitsOf(0x3fff_ffff, 30);
    ValOnes(30);
    ValInjective(BitsOf(0x3fff_ffff, 30), Ones(30));
  }

  /** The table is what the decoder's exactness asks for. */
  lemma TableIsCanonical()
    ensures Canonical(RFC_TABLE)
  {
    TableIsSized();
    forall i, j | 0 <= i < 257 && 0 <= j < 257 && i != j
      ensures !(CodeBits(RFC_TABLE, i) <= CodeBits(RFC_TABLE, j))
    {
      InPlace(i);
      InPlace(j);
      Distinct(RFC_TABLE[i], i, RFC_TABLE[j], j);
      Apart(RFC_TABLE[i], RFC_TABLE[j]);
    }
    EndIsOnes();
  }

  /** With the table of RFC 7541 a byte string decodes to `x` if and only if it is the
      encoding of `x`. */
  lemma RfcStringsDecodeExactly(src: seq<Byte>, x: seq<Byte>)
    ensures Sized(RFC_TABLE)
    ensures Decoded(RFC_TABLE, src) == Some(x) <==> src == Pack(AllBits(RFC_TABLE, x))
  {
    TableIsCanonical();
    DecodesExactlyEncodings(RFC_TABLE, src, x);
  }
}
