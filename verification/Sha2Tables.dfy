/** The 32-bit and 64-bit tables come from the same roots of primes, sections 4.2 and 5.3 of FIPS 180-4. */
module Sha2Tables {
  import Sha256
  import Sha512
  import opened Words

  function High(x: bv64): bv32 { (x >> 32) as bv32 }

  function Low(x: bv64): bv32 { (x & 0xffff_ffff) as bv32 }

  /** Each SHA-256 round constant is the leading half of the SHA-512 constant for the same prime. */
  lemma RoundConstantsAgree(t: nat)
    requires t < 64
    ensures Sha256.K(t) == High(Sha512.K(t))
  {
    match t
    case 0 => case 1 => case 2 => case 3 => case 4 => case 5 => case 6 => case 7 =>
    case 8 => case 9 => case 10 => case 11 => case 12 => case 13 => case 14 => case 15 =>
    case 16 => case 17 => case 18 => case 19 => case 20 => case 21 => case 22 => case 23 =>
    case 24 => case 25 => case 26 => case 27 => case 28 => case 29 => case 30 => case 31 =>
    case 32 => case 33 => case 34 => case 35 => case 36 => case 37 => case 38 => case 39 =>
    case 40 => case 41 => case 42 => case 43 => case 44 => case 45 => case 46 => case 47 =>
    case 48 => case 49 => case 50 => case 51 => case 52 => case 53 => case 54 => case 55 =>
    case 56 => case 57 => case 58 => case 59 => case 60 => case 61 => case 62 => case 63 =>
    case _ =>
  }

  /** SHA-256 starts from the leading halves of the SHA-512 value, SHA-224 from the trailing halves of SHA-384's. */
  lemma InitialValuesAgree()
    ensures var v, w := Sha256.IV256, Sha512.IV512;
      v == Sha256.Vars(High(w.a), High(w.b), High(w.c), High(w.d), High(w.e), High(w.f), High(w.g), High(w.h))
    ensures var v, w := Sha256.IV224, Sha512.IV384;
      v == Sha256.Vars(Low(w.a), Low(w.b), Low(w.c), Low(w.d), Low(w.e), Low(w.f), Low(w.g), Low(w.h))
  {
  }

  /** The first eighty primes. */
  function Prime(t: nat): nat
    requires t < 80
  {
    match t
    case 0 => 2 case 1 => 3 case 2 => 5 case 3 => 7
    case 4 => 11 case 5 => 13 case 6 => 17 case 7 => 19
    case 8 => 23 case 9 => 29 case 10 => 31 case 11 => 37
    case 12 => 41 case 13 => 43 case 14 => 47 case 15 => 53
    case 16 => 59 case 17 => 61 case 18 => 67 case 19 => 71
    case 20 => 73 case 21 => 79 case 22 => 83 case 23 => 89
    case 24 => 97 case 25 => 101 case 26 => 103 case 27 => 107
    case 28 => 109 case 29 => 113 case 30 => 127 case 31 => 131
    case 32 => 137 case 33 => 139 case 34 => 149 case 35 => 151
    case 36 => 157 case 37 => 163 case 38 => 167 case 39 => 173
    case 40 => 179 case 41 => 181 case 42 => 191 case 43 => 193
    case 44 => 197 case 45 => 199 case 46 => 211 case 47 => 223
    case 48 => 227 case 49 => 229 case 50 => 233 case 51 => 239
    case 52 => 241 case 53 => 251 case 54 => 257 case 55 => 263
    case 56 => 269 case 57 => 271 case 58 => 277 case 59 => 281
    case 60 => 283 case 61 => 293 case 62 => 307 case 63 => 311
    case 64 => 313 case 65 => 317 case 66 => 331 case 67 => 337
    case 68 => 347 case 69 => 349 case 70 => 353 case 71 => 359
    case 72 => 367 case 73 => 373 case 74 => 379 case 75 => 383
    case 76 => 389 case 77 => 397 case 78 => 401 case 79 => 409
  }

  function CubeFloor(p: nat): nat {
    if p < 8 then 1 else if p < 27 then 2 else if p < 64 then 3 else if p < 125 then 4
    else if p < 216 then 5 else if p < 343 then 6 else 7
  }

  ghost predicate FloorCubeRoot(x: nat, y: nat) { x * x * x <= y < (x + 1) * (x + 1) * (x + 1) }

  ghost predicate FloorSquareRoot(x: nat, y: nat) { x * x <= y < (x + 1) * (x + 1) }

  /** Each SHA-512 round constant is the first 64 fraction bits of the cube root of its prime. */
  lemma RoundConstantsAreCubeRoots(t: nat)
    requires t < 80
    ensures FloorCubeRoot(CubeFloor(Prime(t)) * TWO_64 + Sha512.K(t) as int, Prime(t) * TWO_128 * TWO_64)
  {
    match t
    case 0 => case 1 => case 2 => case 3 => case 4 => case 5 => case 6 => case 7 =>
    case 8 => case 9 => case 10 => case 11 => case 12 => case 13 => case 14 => case 15 =>
    case 16 => case 17 => case 18 => case 19 => case 20 => case 21 => case 22 => case 23 =>
    case 24 => case 25 => case 26 => case 27 => case 28 => case 29 => case 30 => case 31 =>
    case 32 => case 33 => case 34 => case 35 => case 36 => case 37 => case 38 => case 39 =>
    case 40 => case 41 => case 42 => case 43 => case 44 => case 45 => case 46 => case 47 =>
    case 48 => case 49 => case 50 => case 51 => case 52 => case 53 => case 54 => case 55 =>
    case 56 => case 57 => case 58 => case 59 => case 60 => case 61 => case 62 => case 63 =>
    case 64 => case 65 => case 66 => case 67 => case 68 => case 69 => case 70 => case 71 =>
    case 72 => case 73 => case 74 => case 75 => case 76 => case 77 => case 78 => case 79 =>
    case _ =>
  }

  /** The initial words are the first 64 fraction bits of square roots: of the first eight primes for SHA-512. */
  lemma Sha512StartsFromSquareRoots()
    ensures FloorSquareRoot(1 * TWO_64 + Sha512.IV512.a as int, 2 * TWO_128)
    ensures FloorSquareRoot(1 * TWO_64 + Sha512.IV512.b as int, 3 * TWO_128)
    ensures FloorSquareRoot(2 * TWO_64 + Sha512.IV512.c as int, 5 * TWO_128)
    ensures FloorSquareRoot(2 * TWO_64 + Sha512.IV512.d as int, 7 * TWO_128)
    ensures FloorSquareRoot(3 * TWO_64 + Sha512.IV512.e as int, 11 * TWO_128)
    ensures FloorSquareRoot(3 * TWO_64 + Sha512.IV512.f as int, 13 * TWO_128)
    ensures FloorSquareRoot(4 * TWO_64 + Sha512.IV512.g as int, 17 * TWO_128)
    ensures FloorSquareRoot(4 * TWO_64 + Sha512.IV512.h as int, 19 * TWO_128)
  {
  }

  /** And of the next eight for SHA-384. */
  lemma Sha384StartsFromSquareRoots()
    ensures FloorSquareRoot(4 * TWO_64 + Sha512.IV384.a as int, 23 * TWO_128)
    ensures FloorSquareRoot(5 * TWO_64 + Sha512.IV384.b as int, 29 * TWO_128)
    ensures FloorSquareRoot(5 * TWO_64 + Sha512.IV384.c as int, 31 * TWO_128)
    ensures FloorSquareRoot(6 * TWO_64 + Sha512.IV384.d as int, 37 * TWO_128)
    ensures FloorSquareRoot(6 * TWO_64 + Sha512.IV384.e as int, 41 * TWO_128)
    ensures FloorSquareRoot(6 * TWO_64 + Sha512.IV384.f as int, 43 * TWO_128)
    ensures FloorSquareRoot(6 * TWO_64 + Sha512.IV384.g as int, 47 * TWO_128)
    ensures FloorSquareRoot(7 * TWO_64 + Sha512.IV384.h as int, 53 * TWO_128)
  {
  }
}
