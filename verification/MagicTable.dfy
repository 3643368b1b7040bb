/** Layout of every magical property: how many bits its parameter and value
    take and how they are packed. */
module MagicTable {
  import opened Common

  /** `encode` 2 packs a chance-to-cast parameter and 3 a charged skill;
      `descFunc` 14 packs a skill tab. `numProps` consecutive properties are
      stored as one compound. */
  datatype MagicPropertyDef = MagicPropertyDef(
    saveBits: nat, saveAdd: int, saveParamBits: nat, encode: nat, descFunc: nat, numProps: nat)

  function Properties0(id: nat): Option<MagicPropertyDef> {
    match id
    case 0 => Some(MagicPropertyDef(8, 32, 0, 0, 19, 0))
    case 1 => Some(MagicPropertyDef(7, 32, 0, 0, 19, 0))
    case 2 => Some(MagicPropertyDef(7, 32, 0, 0, 19, 0))
    case 3 => Some(MagicPropertyDef(7, 32, 0, 0, 19, 0))
    case 7 => Some(MagicPropertyDef(9, 32, 0, 0, 19, 0))
    case 9 => Some(MagicPropertyDef(8, 32, 0, 0, 19, 0))
    case 11 => Some(MagicPropertyDef(8, 32, 0, 0, 19, 0))
    case 16 => Some(MagicPropertyDef(9, 0, 0, 0, 19, 0))
    case 17 => Some(MagicPropertyDef(9, 0, 0, 0, 19, 2))
    case 18 => Some(MagicPropertyDef(9, 0, 0, 0, 19, 0))
    case 19 => Some(MagicPropertyDef(10, 0, 0, 0, 19, 0))
    case 20 => Some(MagicPropertyDef(6, 0, 0, 0, 19, 0))
    case 21 => Some(MagicPropertyDef(6, 0, 0, 0, 19, 0))
    case 22 => Some(MagicPropertyDef(7, 0, 0, 0, 19, 0))
    case 23 => Some(MagicPropertyDef(6, 0, 0, 0, 19, 0))
    case 24 => Some(MagicPropertyDef(7, 0, 0, 0, 19, 0))
    case 25 => Some(MagicPropertyDef(8, 0, 0, 0, 19, 0))
    case 26 => Some(MagicPropertyDef(8, 0, 0, 0, 0, 0))
    case 27 => Some(MagicPropertyDef(8, 0, 0, 0, 19, 0))
    case 28 => Some(MagicPropertyDef(8, 0, 0, 0, 19, 0))
    case 31 => Some(MagicPropertyDef(11, 10, 0, 0, 19, 0))
    case 32 => Some(MagicPropertyDef(9, 0, 0, 0, 19, 0))
    case 33 => Some(MagicPropertyDef(8, 0, 0, 0, 19, 0))
    case 34 => Some(MagicPropertyDef(6, 0, 0, 0, 19, 0))
    case 35 => Some(MagicPropertyDef(6, 0, 0, 0, 19, 0))
    case 36 => Some(MagicPropertyDef(9, 200, 0, 0, 29, 0))
    case 37 => Some(MagicPropertyDef(9, 200, 0, 0, 19, 0))
    case 38 => Some(MagicPropertyDef(5, 0, 0, 0, 19, 0))
    case 39 => Some(MagicPropertyDef(9, 200, 0, 0, 19, 0))
    case 40 => Some(MagicPropertyDef(5, 0, 0, 0, 19, 0))
    case 41 => Some(MagicPropertyDef(9, 200, 0, 0, 19, 0))
    case 42 => Some(MagicPropertyDef(5, 0, 0, 0, 19, 0))
    case 43 => Some(MagicPropertyDef(9, 200, 0, 0, 19, 0))
    case 44 => Some(MagicPropertyDef(5, 0, 0, 0, 19, 0))
    case 45 => Some(MagicPropertyDef(9, 200, 0, 0, 19, 0))
    case 46 => Some(MagicPropertyDef(5, 0, 0, 0, 19, 0))
    case 48 => Some(MagicPropertyDef(8, 0, 0, 0, 19, 2))
    case 49 => Some(MagicPropertyDef(9, 0, 0, 0, 19, 0))
    case 50 => Some(MagicPropertyDef(6, 0, 0, 0, 19, 2))
    case 51 => Some(MagicPropertyDef(10, 0, 0, 0, 19, 0))
    case 52 => Some(MagicPropertyDef(8, 0, 0, 0, 19, 2))
    case 53 => Some(MagicPropertyDef(9, 0, 0, 0, 19, 0))
    case 54 => Some(MagicPropertyDef(8, 0, 0, 0, 19, 3))
    case 55 => Some(MagicPropertyDef(9, 0, 0, 0, 19, 0))
    case 56 => Some(MagicPropertyDef(8, 0, 0, 0, 0, 0))
    case 57 => Some(MagicPropertyDef(10, 0, 0, 0, 19, 3))
    case 58 => Some(MagicPropertyDef(10, 0, 0, 0, 19, 0))
    case 59 => Some(MagicPropertyDef(9, 0, 0, 0, 0, 0))
    case 60 => Some(MagicPropertyDef(7, 0, 0, 0, 19, 0))
    case 62 => Some(MagicPropertyDef(7, 0, 0, 0, 19, 0))
    case _ => None
  }

  function Properties64(id: nat): Option<MagicPropertyDef> {
    match id
    case 67 => Some(MagicPropertyDef(7, 30, 0, 0, 0, 0))
    case 68 => Some(MagicPropertyDef(7, 30, 0, 0, 0, 0))
    case 71 => Some(MagicPropertyDef(8, 100, 0, 0, 0, 0))
    case 72 => Some(MagicPropertyDef(9, 0, 0, 0, 0, 0))
    case 73 => Some(MagicPropertyDef(8, 0, 0, 0, 0, 0))
    case 74 => Some(MagicPropertyDef(6, 30, 0, 0, 19, 0))
    case 75 => Some(MagicPropertyDef(7, 20, 0, 0, 19, 0))
    case 76 => Some(MagicPropertyDef(6, 10, 0, 0, 19, 0))
    case 77 => Some(MagicPropertyDef(6, 10, 0, 0, 19, 0))
    case 78 => Some(MagicPropertyDef(7, 0, 0, 0, 19, 0))
    case 79 => Some(MagicPropertyDef(9, 100, 0, 0, 19, 0))
    case 80 => Some(MagicPropertyDef(8, 100, 0, 0, 19, 0))
    case 81 => Some(MagicPropertyDef(7, 0, 0, 0, 19, 0))
    case 82 => Some(MagicPropertyDef(9, 20, 0, 0, 0, 0))
    case 83 => Some(MagicPropertyDef(3, 0, 3, 0, 13, 0))
    case 85 => Some(MagicPropertyDef(9, 50, 0, 0, 19, 0))
    case 86 => Some(MagicPropertyDef(7, 0, 0, 0, 19, 0))
    case 87 => Some(MagicPropertyDef(7, 0, 0, 0, 19, 0))
    case 88 => Some(MagicPropertyDef(1, 0, 0, 0, 0, 0))
    case 89 => Some(MagicPropertyDef(4, 4, 0, 0, 19, 0))
    case 90 => Some(MagicPropertyDef(24, 0, 0, 0, 0, 0))
    case 91 => Some(MagicPropertyDef(8, 100, 0, 0, 19, 0))
    case 92 => Some(MagicPropertyDef(7, 0, 0, 0, 0, 0))
    case 93 => Some(MagicPropertyDef(7, 20, 0, 0, 19, 0))
    case 94 => Some(MagicPropertyDef(7, 64, 0, 0, 0, 0))
    case 96 => Some(MagicPropertyDef(7, 20, 0, 0, 19, 0))
    case 97 => Some(MagicPropertyDef(6, 0, 9, 1, 28, 0))
    case 98 => Some(MagicPropertyDef(1, 0, 8, 0, 0, 0))
    case 99 => Some(MagicPropertyDef(7, 20, 0, 0, 19, 0))
    case 102 => Some(MagicPropertyDef(7, 20, 0, 0, 19, 0))
    case 105 => Some(MagicPropertyDef(7, 20, 0, 0, 19, 0))
    case 107 => Some(MagicPropertyDef(3, 0, 9, 1, 27, 0))
    case 108 => Some(MagicPropertyDef(1, 0, 0, 0, 19, 0))
    case 109 => Some(MagicPropertyDef(9, 0, 0, 0, 0, 0))
    case 110 => Some(MagicPropertyDef(8, 20, 0, 0, 19, 0))
    case 111 => Some(MagicPropertyDef(9, 20, 0, 0, 19, 0))
    case 112 => Some(MagicPropertyDef(7, -1, 0, 0, 5, 0))
    case 113 => Some(MagicPropertyDef(7, 0, 0, 0, 12, 0))
    case 114 => Some(MagicPropertyDef(6, 0, 0, 0, 19, 0))
    case 115 => Some(MagicPropertyDef(1, 0, 0, 0, 19, 0))
    case 116 => Some(MagicPropertyDef(7, 0, 0, 0, 19, 0))
    case 117 => Some(MagicPropertyDef(7, 0, 0, 0, 19, 0))
    case 118 => Some(MagicPropertyDef(1, 0, 0, 0, 19, 0))
    case 119 => Some(MagicPropertyDef(9, 20, 0, 0, 19, 0))
    case 120 => Some(MagicPropertyDef(7, 128, 0, 0, 19, 0))
    case 121 => Some(MagicPropertyDef(9, 20, 0, 0, 19, 0))
    case 122 => Some(MagicPropertyDef(9, 20, 0, 0, 19, 0))
    case 123 => Some(MagicPropertyDef(10, 128, 0, 0, 19, 0))
    case 124 => Some(MagicPropertyDef(10, 128, 0, 0, 19, 0))
    case 125 => Some(MagicPropertyDef(1, 0, 0, 0, 19, 0))
    case 126 => Some(MagicPropertyDef(3, 0, 3, 0, 19, 0))
    case 127 => Some(MagicPropertyDef(3, 0, 0, 0, 19, 0))
    case _ => None
  }

  function Properties128(id: nat): Option<MagicPropertyDef> {
    match id
    case 128 => Some(MagicPropertyDef(5, 0, 0, 0, 19, 0))
    case 134 => Some(MagicPropertyDef(5, 0, 0, 0, 12, 0))
    case 135 => Some(MagicPropertyDef(7, 0, 0, 0, 19, 0))
    case 136 => Some(MagicPropertyDef(7, 0, 0, 0, 19, 0))
    case 137 => Some(MagicPropertyDef(7, 0, 0, 0, 19, 0))
    case 138 => Some(MagicPropertyDef(7, 0, 0, 0, 19, 0))
    case 139 => Some(MagicPropertyDef(7, 0, 0, 0, 19, 0))
    case 140 => Some(MagicPropertyDef(7, 0, 0, 0, 0, 0))
    case 141 => Some(MagicPropertyDef(7, 0, 0, 0, 19, 0))
    case 142 => Some(MagicPropertyDef(7, 0, 0, 0, 19, 0))
    case 143 => Some(MagicPropertyDef(7, 0, 0, 0, 19, 0))
    case 144 => Some(MagicPropertyDef(7, 0, 0, 0, 19, 0))
    case 145 => Some(MagicPropertyDef(7, 0, 0, 0, 19, 0))
    case 146 => Some(MagicPropertyDef(7, 0, 0, 0, 19, 0))
    case 147 => Some(MagicPropertyDef(7, 0, 0, 0, 19, 0))
    case 148 => Some(MagicPropertyDef(7, 0, 0, 0, 19, 0))
    case 149 => Some(MagicPropertyDef(7, 0, 0, 0, 19, 0))
    case 150 => Some(MagicPropertyDef(7, 0, 0, 0, 19, 0))
    case 151 => Some(MagicPropertyDef(5, 0, 9, 0, 16, 0))
    case 152 => Some(MagicPropertyDef(1, 0, 0, 0, 19, 0))
    case 153 => Some(MagicPropertyDef(1, 0, 0, 0, 19, 0))
    case 154 => Some(MagicPropertyDef(7, 20, 0, 0, 19, 0))
    case 155 => Some(MagicPropertyDef(7, 0, 10, 0, 23, 0))
    case 156 => Some(MagicPropertyDef(7, 0, 0, 0, 19, 0))
    case 157 => Some(MagicPropertyDef(7, 0, 0, 0, 19, 0))
    case 158 => Some(MagicPropertyDef(7, 0, 0, 0, 19, 0))
    case 159 => Some(MagicPropertyDef(6, 0, 0, 0, 0, 0))
    case 160 => Some(MagicPropertyDef(7, 0, 0, 0, 0, 0))
    case 179 => Some(MagicPropertyDef(9, 0, 10, 0, 22, 0))
    case 180 => Some(MagicPropertyDef(9, 0, 10, 0, 22, 0))
    case 181 => Some(MagicPropertyDef(3, 0, 0, 0, 0, 0))
    case 185 => Some(MagicPropertyDef(8, 0, 0, 0, 0, 0))
    case 186 => Some(MagicPropertyDef(8, 0, 0, 0, 0, 0))
    case 187 => Some(MagicPropertyDef(10, 0, 0, 0, 19, 0))
    case 188 => Some(MagicPropertyDef(3, 0, 16, 0, 14, 0))
    case 189 => Some(MagicPropertyDef(10, 0, 0, 0, 19, 0))
    case 190 => Some(MagicPropertyDef(10, 0, 0, 0, 19, 0))
    case 191 => Some(MagicPropertyDef(10, 0, 0, 0, 19, 0))
    case _ => None
  }

  function Properties192(id: nat): Option<MagicPropertyDef> {
    match id
    case 192 => Some(MagicPropertyDef(10, 0, 0, 0, 19, 0))
    case 193 => Some(MagicPropertyDef(10, 0, 0, 0, 19, 0))
    case 194 => Some(MagicPropertyDef(4, 0, 0, 0, 0, 0))
    case 195 => Some(MagicPropertyDef(7, 0, 16, 2, 15, 0))
    case 196 => Some(MagicPropertyDef(7, 0, 16, 2, 15, 0))
    case 197 => Some(MagicPropertyDef(7, 0, 16, 2, 15, 0))
    case 198 => Some(MagicPropertyDef(7, 0, 16, 2, 15, 0))
    case 199 => Some(MagicPropertyDef(7, 0, 16, 2, 15, 0))
    case 200 => Some(MagicPropertyDef(7, 0, 0, 0, 19, 0))
    case 201 => Some(MagicPropertyDef(7, 0, 16, 2, 15, 0))
    case 204 => Some(MagicPropertyDef(16, 0, 16, 3, 24, 0))
    case 205 => Some(MagicPropertyDef(7, 0, 0, 0, 19, 0))
    case 206 => Some(MagicPropertyDef(8, 0, 0, 0, 0, 0))
    case 207 => Some(MagicPropertyDef(8, 0, 0, 0, 0, 0))
    case 213 => Some(MagicPropertyDef(8, 0, 0, 0, 0, 0))
    case 214 => Some(MagicPropertyDef(6, 0, 0, 0, 19, 0))
    case 215 => Some(MagicPropertyDef(6, 0, 0, 0, 19, 0))
    case 216 => Some(MagicPropertyDef(6, 0, 0, 0, 19, 0))
    case 217 => Some(MagicPropertyDef(6, 0, 0, 0, 19, 0))
    case 218 => Some(MagicPropertyDef(6, 0, 0, 0, 19, 0))
    case 219 => Some(MagicPropertyDef(6, 0, 0, 0, 19, 0))
    case 220 => Some(MagicPropertyDef(6, 0, 0, 0, 19, 0))
    case 221 => Some(MagicPropertyDef(6, 0, 0, 0, 19, 0))
    case 222 => Some(MagicPropertyDef(6, 0, 0, 0, 19, 0))
    case 223 => Some(MagicPropertyDef(6, 0, 0, 0, 19, 0))
    case 224 => Some(MagicPropertyDef(6, 0, 0, 0, 19, 0))
    case 225 => Some(MagicPropertyDef(6, 0, 0, 0, 19, 0))
    case 226 => Some(MagicPropertyDef(6, 0, 0, 0, 19, 0))
    case 227 => Some(MagicPropertyDef(6, 0, 0, 0, 19, 0))
    case 228 => Some(MagicPropertyDef(6, 0, 0, 0, 19, 0))
    case 229 => Some(MagicPropertyDef(6, 0, 0, 0, 19, 0))
    case 230 => Some(MagicPropertyDef(6, 0, 0, 0, 19, 0))
    case 231 => Some(MagicPropertyDef(6, 0, 0, 0, 19, 0))
    case 232 => Some(MagicPropertyDef(6, 0, 0, 0, 19, 0))
    case 233 => Some(MagicPropertyDef(6, 0, 0, 0, 19, 0))
    case 234 => Some(MagicPropertyDef(6, 0, 0, 0, 19, 0))
    case 235 => Some(MagicPropertyDef(6, 0, 0, 0, 19, 0))
    case 236 => Some(MagicPropertyDef(6, 0, 0, 0, 19, 0))
    case 237 => Some(MagicPropertyDef(6, 0, 0, 0, 0, 0))
    case 238 => Some(MagicPropertyDef(5, 0, 0, 0, 19, 0))
    case 239 => Some(MagicPropertyDef(6, 0, 0, 0, 19, 0))
    case 240 => Some(MagicPropertyDef(6, 0, 0, 0, 19, 0))
    case 241 => Some(MagicPropertyDef(6, 0, 0, 0, 19, 0))
    case 242 => Some(MagicPropertyDef(6, 0, 0, 0, 19, 0))
    case 243 => Some(MagicPropertyDef(6, 0, 0, 0, 19, 0))
    case 244 => Some(MagicPropertyDef(6, 0, 0, 0, 19, 0))
    case 245 => Some(MagicPropertyDef(6, 0, 0, 0, 19, 0))
    case 246 => Some(MagicPropertyDef(6, 0, 0, 0, 19, 0))
    case 247 => Some(MagicPropertyDef(6, 0, 0, 0, 19, 0))
    case 248 => Some(MagicPropertyDef(6, 0, 0, 0, 19, 0))
    case 249 => Some(MagicPropertyDef(6, 0, 0, 0, 19, 0))
    case 250 => Some(MagicPropertyDef(6, 0, 0, 0, 19, 0))
    case 252 => Some(MagicPropertyDef(6, 0, 0, 0, 11, 0))
    case 253 => Some(MagicPropertyDef(6, 0, 0, 0, 19, 0))
    case 254 => Some(MagicPropertyDef(8, 0, 0, 0, 19, 0))
    case _ => None
  }

  function Properties256(id: nat): Option<MagicPropertyDef> {
    match id
    case 268 => Some(MagicPropertyDef(22, 0, 0, 4, 17, 0))
    case 269 => Some(MagicPropertyDef(22, 0, 0, 4, 18, 0))
    case 270 => Some(MagicPropertyDef(22, 0, 0, 4, 17, 0))
    case 271 => Some(MagicPropertyDef(22, 0, 0, 4, 17, 0))
    case 272 => Some(MagicPropertyDef(22, 0, 0, 4, 17, 0))
    case 273 => Some(MagicPropertyDef(22, 0, 0, 4, 18, 0))
    case 274 => Some(MagicPropertyDef(22, 0, 0, 4, 17, 0))
    case 275 => Some(MagicPropertyDef(22, 0, 0, 4, 17, 0))
    case 276 => Some(MagicPropertyDef(22, 0, 0, 4, 17, 0))
    case 277 => Some(MagicPropertyDef(22, 0, 0, 4, 17, 0))
    case 278 => Some(MagicPropertyDef(22, 0, 0, 4, 17, 0))
    case 279 => Some(MagicPropertyDef(22, 0, 0, 4, 18, 0))
    case 280 => Some(MagicPropertyDef(22, 0, 0, 4, 17, 0))
    case 281 => Some(MagicPropertyDef(22, 0, 0, 4, 17, 0))
    case 282 => Some(MagicPropertyDef(22, 0, 0, 4, 17, 0))
    case 283 => Some(MagicPropertyDef(22, 0, 0, 4, 17, 0))
    case 284 => Some(MagicPropertyDef(22, 0, 0, 4, 18, 0))
    case 285 => Some(MagicPropertyDef(22, 0, 0, 4, 18, 0))
    case 286 => Some(MagicPropertyDef(22, 0, 0, 4, 18, 0))
    case 287 => Some(MagicPropertyDef(22, 0, 0, 4, 18, 0))
    case 288 => Some(MagicPropertyDef(22, 0, 0, 4, 18, 0))
    case 289 => Some(MagicPropertyDef(22, 0, 0, 4, 18, 0))
    case 290 => Some(MagicPropertyDef(22, 0, 0, 4, 18, 0))
    case 291 => Some(MagicPropertyDef(22, 0, 0, 4, 0, 0))
    case 292 => Some(MagicPropertyDef(22, 0, 0, 4, 18, 0))
    case 293 => Some(MagicPropertyDef(22, 0, 0, 4, 18, 0))
    case 294 => Some(MagicPropertyDef(22, 0, 0, 4, 18, 0))
    case 295 => Some(MagicPropertyDef(22, 0, 0, 4, 17, 0))
    case 296 => Some(MagicPropertyDef(22, 0, 0, 4, 18, 0))
    case 297 => Some(MagicPropertyDef(22, 0, 0, 4, 18, 0))
    case 298 => Some(MagicPropertyDef(22, 0, 0, 4, 17, 0))
    case 299 => Some(MagicPropertyDef(22, 0, 0, 4, 17, 0))
    case 300 => Some(MagicPropertyDef(22, 0, 0, 4, 18, 0))
    case 301 => Some(MagicPropertyDef(22, 0, 0, 4, 18, 0))
    case 302 => Some(MagicPropertyDef(22, 0, 0, 4, 17, 0))
    case 303 => Some(MagicPropertyDef(22, 0, 0, 4, 18, 0))
    case 305 => Some(MagicPropertyDef(8, 50, 0, 0, 19, 0))
    case 306 => Some(MagicPropertyDef(8, 50, 0, 0, 19, 0))
    case 307 => Some(MagicPropertyDef(8, 50, 0, 0, 19, 0))
    case 308 => Some(MagicPropertyDef(8, 50, 0, 0, 19, 0))
    case _ => None
  }

  function Properties320(id: nat): Option<MagicPropertyDef> {
    match id
    case 324 => Some(MagicPropertyDef(6, 0, 0, 0, 0, 0))
    case 329 => Some(MagicPropertyDef(9, 50, 0, 0, 19, 0))
    case 330 => Some(MagicPropertyDef(9, 50, 0, 0, 19, 0))
    case 331 => Some(MagicPropertyDef(9, 50, 0, 0, 19, 0))
    case 332 => Some(MagicPropertyDef(9, 50, 0, 0, 19, 0))
    case 333 => Some(MagicPropertyDef(8, 0, 0, 0, 19, 0))
    case 334 => Some(MagicPropertyDef(8, 0, 0, 0, 19, 0))
    case 335 => Some(MagicPropertyDef(8, 0, 0, 0, 19, 0))
    case 336 => Some(MagicPropertyDef(8, 0, 0, 0, 19, 0))
    case 337 => Some(MagicPropertyDef(8, 0, 0, 0, 0, 0))
    case 338 => Some(MagicPropertyDef(7, 0, 0, 0, 0, 0))
    case 339 => Some(MagicPropertyDef(7, 0, 0, 0, 0, 0))
    case 340 => Some(MagicPropertyDef(7, 0, 0, 0, 0, 0))
    case 341 => Some(MagicPropertyDef(8, 0, 0, 0, 0, 0))
    case 342 => Some(MagicPropertyDef(8, 0, 0, 0, 0, 0))
    case 343 => Some(MagicPropertyDef(8, 0, 0, 0, 0, 0))
    case 344 => Some(MagicPropertyDef(8, 0, 0, 0, 0, 0))
    case 345 => Some(MagicPropertyDef(8, 0, 0, 0, 0, 0))
    case 346 => Some(MagicPropertyDef(8, 0, 0, 0, 0, 0))
    case 347 => Some(MagicPropertyDef(8, 0, 0, 0, 0, 0))
    case 348 => Some(MagicPropertyDef(8, 0, 0, 0, 0, 0))
    case 349 => Some(MagicPropertyDef(8, 0, 0, 0, 0, 0))
    case 356 => Some(MagicPropertyDef(2, 0, 0, 0, 0, 0))
    case 357 => Some(MagicPropertyDef(9, 50, 0, 0, 19, 0))
    case 358 => Some(MagicPropertyDef(8, 0, 0, 0, 19, 0))
    case 365 => Some(MagicPropertyDef(6, 0, 0, 0, 19, 0))
    case 366 => Some(MagicPropertyDef(8, 0, 0, 0, 19, 0))
    case _ => None
  }

  function MagicalProperty(id: nat): Option<MagicPropertyDef> {
    if id < 64 then Properties0(id)
    else if id < 128 then Properties64(id)
    else if id < 192 then Properties128(id)
    else if id < 256 then Properties192(id)
    else if id < 320 then Properties256(id)
    else Properties320(id)
  }

  /** What the readers rely on: every field fits the bit buffer, and packed
      fields are exactly as wide as what is packed into them. */
  predicate WellLaid(p: MagicPropertyDef) {
    && 0 < p.saveBits <= 57
    && p.saveParamBits <= 16
    && !(p.descFunc == 14 && (p.encode == 2 || p.encode == 3))
    && (p.descFunc == 14 || p.encode == 2 || p.encode == 3 ==> p.saveParamBits == 16)
    && (p.encode == 3 ==> p.saveBits == 16 && p.saveAdd == 0)
  }

  lemma Properties0WellLaid(id: nat)
    requires Properties0(id).Some?
    ensures id < 400 && WellLaid(Properties0(id).value) && Properties0(id).value.numProps <= 3
    ensures Properties0(id).value.numProps > 1 ==> id < 60 && Properties0(id + 1).Some?
    ensures Properties0(id).value.numProps > 2 ==> Properties0(id + 2).Some?
  {
  }

  lemma Properties64WellLaid(id: nat)
    requires Properties64(id).Some?
    ensures id < 400 && WellLaid(Properties64(id).value) && Properties64(id).value.numProps == 0
  {
  }

  lemma Properties128WellLaid(id: nat)
    requires Properties128(id).Some?
    ensures id < 400 && WellLaid(Properties128(id).value) && Properties128(id).value.numProps == 0
  {
  }

  lemma Properties192WellLaid(id: nat)
    requires Properties192(id).Some?
    ensures id < 400 && WellLaid(Properties192(id).value) && Properties192(id).value.numProps == 0
  {
  }

  lemma Properties256WellLaid(id: nat)
    requires Properties256(id).Some?
    ensures id < 400 && WellLaid(Properties256(id).value) && Properties256(id).value.numProps == 0
  {
  }

  lemma Properties320WellLaid(id: nat)
    requires Properties320(id).Some?
    ensures id < 400 && WellLaid(Properties320(id).value) && Properties320(id).value.numProps == 0
  {
  }

  lemma PropertyWellLaid(id: nat)
    requires MagicalProperty(id).Some?
    ensures id < 400 && WellLaid(MagicalProperty(id).value)
    ensures MagicalProperty(id).value.numProps <= 3
    ensures MagicalProperty(id).value.numProps > 1 ==> MagicalProperty(id + 1).Some?
    ensures MagicalProperty(id).value.numProps > 2 ==> MagicalProperty(id + 2).Some?
  {
    hide Properties0, Properties64, Properties128, Properties192, Properties256, Properties320, WellLaid;
    if id < 64 {
      Properties0WellLaid(id);
    } else if id < 128 {
      Properties64WellLaid(id);
    } else if id < 192 {
      Properties128WellLaid(id);
    } else if id < 256 {
      Properties192WellLaid(id);
    } else if id < 320 {
      Properties256WellLaid(id);
    } else {
      Properties320WellLaid(id);
    }
  }
}
