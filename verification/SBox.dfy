/** The substitution boxes of RFC 7801 (section 4.1.1) and the byte-wise layer S. */
module SBox {
  import opened Bytes

  function S0(x: byte): byte
    requires 0 <= x < 16
  {
    match x
    case 0 => 252 case 1 => 238 case 2 => 221 case 3 => 17 case 4 => 207 case 5 => 110 case 6 => 49 case 7 => 22
    case 8 => 251 case 9 => 196 case 10 => 250 case 11 => 218 case 12 => 35 case 13 => 197 case 14 => 4
    case _ => 77
  }

  function S1(x: byte): byte
    requires 16 <= x < 32
  {
    match x
    case 16 => 233 case 17 => 119 case 18 => 240 case 19 => 219 case 20 => 147 case 21 => 46 case 22 => 153
    case 23 => 186
    case 24 => 23 case 25 => 54 case 26 => 241 case 27 => 187 case 28 => 20 case 29 => 205 case 30 => 95
    case _ => 193
  }

  function S2(x: byte): byte
    requires 32 <= x < 48
  {
    match x
    case 32 => 249 case 33 => 24 case 34 => 101 case 35 => 90 case 36 => 226 case 37 => 92 case 38 => 239
    case 39 => 33
    case 40 => 129 case 41 => 28 case 42 => 60 case 43 => 66 case 44 => 139 case 45 => 1 case 46 => 142
    case _ => 79
  }

  function S3(x: byte): byte
    requires 48 <= x < 64
  {
    match x
    case 48 => 5 case 49 => 132 case 50 => 2 case 51 => 174 case 52 => 227 case 53 => 106 case 54 => 143
    case 55 => 160
    case 56 => 6 case 57 => 11 case 58 => 237 case 59 => 152 case 60 => 127 case 61 => 212 case 62 => 211
    case _ => 31
  }

  function S4(x: byte): byte
    requires 64 <= x < 80
  {
    match x
    case 64 => 235 case 65 => 52 case 66 => 44 case 67 => 81 case 68 => 234 case 69 => 200 case 70 => 72
    case 71 => 171
    case 72 => 242 case 73 => 42 case 74 => 104 case 75 => 162 case 76 => 253 case 77 => 58 case 78 => 206
    case _ => 204
  }

  function S5(x: byte): byte
    requires 80 <= x < 96
  {
    match x
    case 80 => 181 case 81 => 112 case 82 => 14 case 83 => 86 case 84 => 8 case 85 => 12 case 86 => 118
    case 87 => 18
    case 88 => 191 case 89 => 114 case 90 => 19 case 91 => 71 case 92 => 156 case 93 => 183 case 94 => 93
    case _ => 135
  }

  function S6(x: byte): byte
    requires 96 <= x < 112
  {
    match x
    case 96 => 21 case 97 => 161 case 98 => 150 case 99 => 41 case 100 => 16 case 101 => 123 case 102 => 154
    case 103 => 199
    case 104 => 243 case 105 => 145 case 106 => 120 case 107 => 111 case 108 => 157 case 109 => 158
    case 110 => 178 case _ => 177
  }

  function S7(x: byte): byte
    requires 112 <= x < 128
  {
    match x
    case 112 => 50 case 113 => 117 case 114 => 25 case 115 => 61 case 116 => 255 case 117 => 53 case 118 => 138
    case 119 => 126
    case 120 => 109 case 121 => 84 case 122 => 198 case 123 => 128 case 124 => 195 case 125 => 189
    case 126 => 13 case _ => 87
  }

  function S8(x: byte): byte
    requires 128 <= x < 144
  {
    match x
    case 128 => 223 case 129 => 245 case 130 => 36 case 131 => 169 case 132 => 62 case 133 => 168 case 134 => 67
    case 135 => 201
    case 136 => 215 case 137 => 121 case 138 => 214 case 139 => 246 case 140 => 124 case 141 => 34
    case 142 => 185 case _ => 3
  }

  function S9(x: byte): byte
    requires 144 <= x < 160
  {
    match x
    case 144 => 224 case 145 => 15 case 146 => 236 case 147 => 222 case 148 => 122 case 149 => 148
    case 150 => 176 case 151 => 188
    case 152 => 220 case 153 => 232 case 154 => 40 case 155 => 80 case 156 => 78 case 157 => 51 case 158 => 10
    case _ => 74
  }

  function S10(x: byte): byte
    requires 160 <= x < 176
  {
    match x
    case 160 => 167 case 161 => 151 case 162 => 96 case 163 => 115 case 164 => 30 case 165 => 0 case 166 => 98
    case 167 => 68
    case 168 => 26 case 169 => 184 case 170 => 56 case 171 => 130 case 172 => 100 case 173 => 159 case 174 => 38
    case _ => 65
  }

  function S11(x: byte): byte
    requires 176 <= x < 192
  {
    match x
    case 176 => 173 case 177 => 69 case 178 => 70 case 179 => 146 case 180 => 39 case 181 => 94 case 182 => 85
    case 183 => 47
    case 184 => 140 case 185 => 163 case 186 => 165 case 187 => 125 case 188 => 105 case 189 => 213
    case 190 => 149 case _ => 59
  }

  function S12(x: byte): byte
    requires 192 <= x < 208
  {
    match x
    case 192 => 7 case 193 => 88 case 194 => 179 case 195 => 64 case 196 => 134 case 197 => 172 case 198 => 29
    case 199 => 247
    case 200 => 48 case 201 => 55 case 202 => 107 case 203 => 228 case 204 => 136 case 205 => 217
    case 206 => 231 case _ => 137
  }

  function S13(x: byte): byte
    requires 208 <= x < 224
  {
    match x
    case 208 => 225 case 209 => 27 case 210 => 131 case 211 => 73 case 212 => 76 case 213 => 63 case 214 => 248
    case 215 => 254
    case 216 => 141 case 217 => 83 case 218 => 170 case 219 => 144 case 220 => 202 case 221 => 216
    case 222 => 133 case _ => 97
  }

  function S14(x: byte): byte
    requires 224 <= x < 240
  {
    match x
    case 224 => 32 case 225 => 113 case 226 => 103 case 227 => 164 case 228 => 45 case 229 => 43 case 230 => 9
    case 231 => 91
    case 232 => 203 case 233 => 155 case 234 => 37 case 235 => 208 case 236 => 190 case 237 => 229
    case 238 => 108 case _ => 82
  }

  function S15(x: byte): byte
    requires 240 <= x < 256
  {
    match x
    case 240 => 89 case 241 => 166 case 242 => 116 case 243 => 210 case 244 => 230 case 245 => 244
    case 246 => 180 case 247 => 192
    case 248 => 209 case 249 => 102 case 250 => 175 case 251 => 194 case 252 => 57 case 253 => 75 case 254 => 99
    case _ => 182
  }

  function S(x: byte): byte {
    if x < 16 then S0(x) else if x < 32 then S1(x) else if x < 48 then S2(x) else if x < 64 then S3(x) else
    if x < 80 then S4(x) else if x < 96 then S5(x) else if x < 112 then S6(x) else if x < 128 then S7(x) else
    if x < 144 then S8(x) else if x < 160 then S9(x) else if x < 176 then S10(x) else if x < 192 then S11(x) else
    if x < 208 then S12(x) else if x < 224 then S13(x) else if x < 240 then S14(x) else S15(x)
  }

  function SInv0(x: byte): byte
    requires 0 <= x < 16
  {
    match x
    case 0 => 165 case 1 => 45 case 2 => 50 case 3 => 143 case 4 => 14 case 5 => 48 case 6 => 56 case 7 => 192
    case 8 => 84 case 9 => 230 case 10 => 158 case 11 => 57 case 12 => 85 case 13 => 126 case 14 => 82
    case _ => 145
  }

  function SInv1(x: byte): byte
    requires 16 <= x < 32
  {
    match x
    case 16 => 100 case 17 => 3 case 18 => 87 case 19 => 90 case 20 => 28 case 21 => 96 case 22 => 7
    case 23 => 24
    case 24 => 33 case 25 => 114 case 26 => 168 case 27 => 209 case 28 => 41 case 29 => 198 case 30 => 164
    case _ => 63
  }

  function SInv2(x: byte): byte
    requires 32 <= x < 48
  {
    match x
    case 32 => 224 case 33 => 39 case 34 => 141 case 35 => 12 case 36 => 130 case 37 => 234 case 38 => 174
    case 39 => 180
    case 40 => 154 case 41 => 99 case 42 => 73 case 43 => 229 case 44 => 66 case 45 => 228 case 46 => 21
    case _ => 183
  }

  function SInv3(x: byte): byte
    requires 48 <= x < 64
  {
    match x
    case 48 => 200 case 49 => 6 case 50 => 112 case 51 => 157 case 52 => 65 case 53 => 117 case 54 => 25
    case 55 => 201
    case 56 => 170 case 57 => 252 case 58 => 77 case 59 => 191 case 60 => 42 case 61 => 115 case 62 => 132
    case _ => 213
  }

  function SInv4(x: byte): byte
    requires 64 <= x < 80
  {
    match x
    case 64 => 195 case 65 => 175 case 66 => 43 case 67 => 134 case 68 => 167 case 69 => 177 case 70 => 178
    case 71 => 91
    case 72 => 70 case 73 => 211 case 74 => 159 case 75 => 253 case 76 => 212 case 77 => 15 case 78 => 156
    case _ => 47
  }

  function SInv5(x: byte): byte
    requires 80 <= x < 96
  {
    match x
    case 80 => 155 case 81 => 67 case 82 => 239 case 83 => 217 case 84 => 121 case 85 => 182 case 86 => 83
    case 87 => 127
    case 88 => 193 case 89 => 240 case 90 => 35 case 91 => 231 case 92 => 37 case 93 => 94 case 94 => 181
    case _ => 30
  }

  function SInv6(x: byte): byte
    requires 96 <= x < 112
  {
    match x
    case 96 => 162 case 97 => 223 case 98 => 166 case 99 => 254 case 100 => 172 case 101 => 34 case 102 => 249
    case 103 => 226
    case 104 => 74 case 105 => 188 case 106 => 53 case 107 => 202 case 108 => 238 case 109 => 120 case 110 => 5
    case _ => 107
  }

  function SInv7(x: byte): byte
    requires 112 <= x < 128
  {
    match x
    case 112 => 81 case 113 => 225 case 114 => 89 case 115 => 163 case 116 => 242 case 117 => 113 case 118 => 86
    case 119 => 17
    case 120 => 106 case 121 => 137 case 122 => 148 case 123 => 101 case 124 => 140 case 125 => 187
    case 126 => 119 case _ => 60
  }

  function SInv8(x: byte): byte
    requires 128 <= x < 144
  {
    match x
    case 128 => 123 case 129 => 40 case 130 => 171 case 131 => 210 case 132 => 49 case 133 => 222
    case 134 => 196 case 135 => 95
    case 136 => 204 case 137 => 207 case 138 => 118 case 139 => 44 case 140 => 184 case 141 => 216
    case 142 => 46 case _ => 54
  }

  function SInv9(x: byte): byte
    requires 144 <= x < 160
  {
    match x
    case 144 => 219 case 145 => 105 case 146 => 179 case 147 => 20 case 148 => 149 case 149 => 190
    case 150 => 98 case 151 => 161
    case 152 => 59 case 153 => 22 case 154 => 102 case 155 => 233 case 156 => 92 case 157 => 108 case 158 => 109
    case _ => 173
  }

  function SInv10(x: byte): byte
    requires 160 <= x < 176
  {
    match x
    case 160 => 55 case 161 => 97 case 162 => 75 case 163 => 185 case 164 => 227 case 165 => 186 case 166 => 241
    case 167 => 160
    case 168 => 133 case 169 => 131 case 170 => 218 case 171 => 71 case 172 => 197 case 173 => 176
    case 174 => 51 case _ => 250
  }

  function SInv11(x: byte): byte
    requires 176 <= x < 192
  {
    match x
    case 176 => 150 case 177 => 111 case 178 => 110 case 179 => 194 case 180 => 246 case 181 => 80
    case 182 => 255 case 183 => 93
    case 184 => 169 case 185 => 142 case 186 => 23 case 187 => 27 case 188 => 151 case 189 => 125
    case 190 => 236 case _ => 88
  }

  function SInv12(x: byte): byte
    requires 192 <= x < 208
  {
    match x
    case 192 => 247 case 193 => 31 case 194 => 251 case 195 => 124 case 196 => 9 case 197 => 13 case 198 => 122
    case 199 => 103
    case 200 => 69 case 201 => 135 case 202 => 220 case 203 => 232 case 204 => 79 case 205 => 29 case 206 => 78
    case _ => 4
  }

  function SInv13(x: byte): byte
    requires 208 <= x < 224
  {
    match x
    case 208 => 235 case 209 => 248 case 210 => 243 case 211 => 62 case 212 => 61 case 213 => 189
    case 214 => 138 case 215 => 136
    case 216 => 221 case 217 => 205 case 218 => 11 case 219 => 19 case 220 => 152 case 221 => 2 case 222 => 147
    case _ => 128
  }

  function SInv14(x: byte): byte
    requires 224 <= x < 240
  {
    match x
    case 224 => 144 case 225 => 208 case 226 => 36 case 227 => 52 case 228 => 203 case 229 => 237
    case 230 => 244 case 231 => 206
    case 232 => 153 case 233 => 16 case 234 => 68 case 235 => 64 case 236 => 146 case 237 => 58 case 238 => 1
    case _ => 38
  }

  function SInv15(x: byte): byte
    requires 240 <= x < 256
  {
    match x
    case 240 => 18 case 241 => 26 case 242 => 72 case 243 => 104 case 244 => 245 case 245 => 129 case 246 => 139
    case 247 => 199
    case 248 => 214 case 249 => 32 case 250 => 10 case 251 => 8 case 252 => 0 case 253 => 76 case 254 => 215
    case _ => 116
  }

  function SInv(x: byte): byte {
    if x < 16 then SInv0(x) else if x < 32 then SInv1(x) else if x < 48 then SInv2(x) else if x < 64 then SInv3(x) else
    if x < 80 then SInv4(x) else if x < 96 then SInv5(x) else if x < 112 then SInv6(x) else
    if x < 128 then SInv7(x) else
    if x < 144 then SInv8(x) else if x < 160 then SInv9(x) else if x < 176 then SInv10(x) else
    if x < 192 then SInv11(x) else
    if x < 208 then SInv12(x) else if x < 224 then SInv13(x) else if x < 240 then SInv14(x) else SInv15(x)
  }

  // The inverse box undoes the box, one row of sixteen entries at a time.

  lemma Row0(x: byte)
    requires 0 <= x < 16
    ensures SInv(S(x)) == x
  {
    match x
    case 0 => case 1 => case 2 => case 3 => case 4 => case 5 => case 6 => case 7 => case 8 => case 9 =>
    case 10 => case 11 => case 12 => case 13 => case 14 => case _ =>
  }

  lemma Row1(x: byte)
    requires 16 <= x < 32
    ensures SInv(S(x)) == x
  {
    match x
    case 16 => case 17 => case 18 => case 19 => case 20 => case 21 => case 22 => case 23 => case 24 =>
    case 25 => case 26 => case 27 => case 28 => case 29 => case 30 => case _ =>
  }

  lemma Row2(x: byte)
    requires 32 <= x < 48
    ensures SInv(S(x)) == x
  {
    match x
    case 32 => case 33 => case 34 => case 35 => case 36 => case 37 => case 38 => case 39 => case 40 =>
    case 41 => case 42 => case 43 => case 44 => case 45 => case 46 => case _ =>
  }

  lemma Row3(x: byte)
    requires 48 <= x < 64
    ensures SInv(S(x)) == x
  {
    match x
    case 48 => case 49 => case 50 => case 51 => case 52 => case 53 => case 54 => case 55 => case 56 =>
    case 57 => case 58 => case 59 => case 60 => case 61 => case 62 => case _ =>
  }

  lemma Row4(x: byte)
    requires 64 <= x < 80
    ensures SInv(S(x)) == x
  {
    match x
    case 64 => case 65 => case 66 => case 67 => case 68 => case 69 => case 70 => case 71 => case 72 =>
    case 73 => case 74 => case 75 => case 76 => case 77 => case 78 => case _ =>
  }

  lemma Row5(x: byte)
    requires 80 <= x < 96
    ensures SInv(S(x)) == x
  {
    match x
    case 80 => case 81 => case 82 => case 83 => case 84 => case 85 => case 86 => case 87 => case 88 =>
    case 89 => case 90 => case 91 => case 92 => case 93 => case 94 => case _ =>
  }

  lemma Row6(x: byte)
    requires 96 <= x < 112
    ensures SInv(S(x)) == x
  {
    match x
    case 96 => case 97 => case 98 => case 99 => case 100 => case 101 => case 102 => case 103 => case 104 =>
    case 105 => case 106 => case 107 => case 108 => case 109 => case 110 => case _ =>
  }

  lemma Row7(x: byte)
    requires 112 <= x < 128
    ensures SInv(S(x)) == x
  {
    match x
    case 112 => case 113 => case 114 => case 115 => case 116 => case 117 => case 118 => case 119 => case 120 =>
    case 121 => case 122 => case 123 => case 124 => case 125 => case 126 => case _ =>
  }

  lemma Row8(x: byte)
    requires 128 <= x < 144
    ensures SInv(S(x)) == x
  {
    match x
    case 128 => case 129 => case 130 => case 131 => case 132 => case 133 => case 134 => case 135 => case 136 =>
    case 137 => case 138 => case 139 => case 140 => case 141 => case 142 => case _ =>
  }

  lemma Row9(x: byte)
    requires 144 <= x < 160
    ensures SInv(S(x)) == x
  {
    match x
    case 144 => case 145 => case 146 => case 147 => case 148 => case 149 => case 150 => case 151 => case 152 =>
    case 153 => case 154 => case 155 => case 156 => case 157 => case 158 => case _ =>
  }

  lemma Row10(x: byte)
    requires 160 <= x < 176
    ensures SInv(S(x)) == x
  {
    match x
    case 160 => case 161 => case 162 => case 163 => case 164 => case 165 => case 166 => case 167 => case 168 =>
    case 169 => case 170 => case 171 => case 172 => case 173 => case 174 => case _ =>
  }

  lemma Row11(x: byte)
    requires 176 <= x < 192
    ensures SInv(S(x)) == x
  {
    match x
    case 176 => case 177 => case 178 => case 179 => case 180 => case 181 => case 182 => case 183 => case 184 =>
    case 185 => case 186 => case 187 => case 188 => case 189 => case 190 => case _ =>
  }

  lemma Row12(x: byte)
    requires 192 <= x < 208
    ensures SInv(S(x)) == x
  {
    match x
    case 192 => case 193 => case 194 => case 195 => case 196 => case 197 => case 198 => case 199 => case 200 =>
    case 201 => case 202 => case 203 => case 204 => case 205 => case 206 => case _ =>
  }

  lemma Row13(x: byte)
    requires 208 <= x < 224
    ensures SInv(S(x)) == x
  {
    match x
    case 208 => case 209 => case 210 => case 211 => case 212 => case 213 => case 214 => case 215 => case 216 =>
    case 217 => case 218 => case 219 => case 220 => case 221 => case 222 => case _ =>
  }

  lemma Row14(x: byte)
    requires 224 <= x < 240
    ensures SInv(S(x)) == x
  {
    match x
    case 224 => case 225 => case 226 => case 227 => case 228 => case 229 => case 230 => case 231 => case 232 =>
    case 233 => case 234 => case 235 => case 236 => case 237 => case 238 => case _ =>
  }

  lemma Row15(x: byte)
    requires 240 <= x < 256
    ensures SInv(S(x)) == x
  {
    match x
    case 240 => case 241 => case 242 => case 243 => case 244 => case 245 => case 246 => case 247 => case 248 =>
    case 249 => case 250 => case 251 => case 252 => case 253 => case 254 => case _ =>
  }

  lemma SInvS(x: byte)
    ensures SInv(S(x)) == x
  {
    hide S, SInv;
    if x < 16 { Row0(x); } else if x < 32 { Row1(x); } else if x < 48 { Row2(x); } else if x < 64 { Row3(x); } else
    if x < 80 { Row4(x); } else if x < 96 { Row5(x); } else if x < 112 { Row6(x); } else if x < 128 { Row7(x); } else
    if x < 144 { Row8(x); } else if x < 160 { Row9(x); } else if x < 176 { Row10(x); } else
    if x < 192 { Row11(x); } else
    if x < 208 { Row12(x); } else if x < 224 { Row13(x); } else if x < 240 { Row14(x); } else { Row15(x); }
  }

  ghost predicate LeftInverse(g: byte -> byte, f: byte -> byte) {
    forall x: byte :: g(f(x)) == x
  }

  /** The first `n` values of `f`. */
  ghost function Images(f: byte -> byte, n: nat): set<byte>
    requires n <= 256
  {
    if n == 0 then {} else Images(f, n - 1) + {f(n - 1)}
  }

  /** A function with a left inverse is injective: its first n values are n different ones. */
  lemma {:induction false} ImagesDistinct(g: byte -> byte, f: byte -> byte, n: nat)
    requires LeftInverse(g, f) && n <= 256
    ensures |Images(f, n)| == n
    ensures forall y :: y in Images(f, n) ==> g(y) < n && f(g(y)) == y
  {
    if n == 0 {
    } else {
      ImagesDistinct(g, f, n - 1);
      var last: byte := n - 1;
      assert g(f(last)) == last;
    }
  }

  ghost function Below(n: nat): set<byte>
    requires n <= 256
  {
    if n == 0 then {} else Below(n - 1) + {n - 1}
  }

  lemma {:induction false} BelowSize(n: nat)
    requires n <= 256
    ensures |Below(n)| == n
    ensures forall y: byte :: y in Below(n) <==> y < n
  {
    if n == 0 {
    } else {
      BelowSize(n - 1);
    }
  }

  lemma SubsetOfSameSize<T>(a: set<T>, b: set<T>)
    requires a <= b && |a| == |b|
    ensures a == b
  {
    assert |b - a| == |b| - |a|;
  }

  /** On a finite set a left inverse is a right inverse, by counting. */
  lemma LeftInverseIsRightInverse(g: byte -> byte, f: byte -> byte, y: byte)
    requires LeftInverse(g, f)
    ensures f(g(y)) == y
  {
    ImagesDistinct(g, f, 256);
    BelowSize(256);
    SubsetOfSameSize(Images(f, 256), Below(256));
  }

  lemma SSInv(y: byte)
    ensures S(SInv(y)) == y
  {
    hide S, SInv;
    forall x: byte ensures SInv(S(x)) == x { SInvS(x); }
    LeftInverseIsRightInverse(SInv, S, y);
  }

  /** The transformation S of RFC 7801: the box on each of the sixteen bytes. */
  function SLayer(b: Block): Block {
    seq(BLOCK_SIZE, i requires 0 <= i < BLOCK_SIZE => S(b[i]))
  }

  function SLayerInv(b: Block): Block {
    seq(BLOCK_SIZE, i requires 0 <= i < BLOCK_SIZE => SInv(b[i]))
  }

  lemma SLayerInverse(b: Block)
    ensures SLayerInv(SLayer(b)) == b && SLayer(SLayerInv(b)) == b
  {
    hide S, SInv;
    forall i | 0 <= i < BLOCK_SIZE
      ensures SLayerInv(SLayer(b))[i] == b[i] && SLayer(SLayerInv(b))[i] == b[i]
    {
      SInvS(b[i]);
      SSInv(b[i]);
    }
  }
}
