/** The opcodes of the bytecode machine, in the order of the enumeration at
    pkg/urbit/noun/nock.c:371-470: a short-index opcode directly follows its byte-index form. */
module Opcodes {
  const HALT: nat := 0
  const BAIL: nat := 1
  const COPY: nat := 2
  const SWAP: nat := 3
  const TOSS: nat := 4
  const AUTO: nat := 5
  const AULT: nat := 6
  const SNOC: nat := 7
  const SNOL: nat := 8
  const HEAD: nat := 9
  const HELD: nat := 10
  const TAIL: nat := 11
  const TALL: nat := 12
  const FABK: nat := 13
  const FASK: nat := 14
  const FIBK: nat := 15
  const FISK: nat := 16
  const FABL: nat := 17
  const FASL: nat := 18
  const FIBL: nat := 19
  const FISL: nat := 20
  const LIT0: nat := 21
  const LIT1: nat := 22
  const LITB: nat := 23
  const LITS: nat := 24
  const LIBK: nat := 25
  const LISK: nat := 26
  const LIL0: nat := 27
  const LIL1: nat := 28
  const LILB: nat := 29
  const LILS: nat := 30
  const LIBL: nat := 31
  const LISL: nat := 32
  const NOLK: nat := 33
  const NOCT: nat := 34
  const NOCK: nat := 35
  const DEEP: nat := 36
  const BUMP: nat := 37
  const SAM0: nat := 38
  const SAM1: nat := 39
  const SAMB: nat := 40
  const SAMS: nat := 41
  const SANB: nat := 42
  const SANS: nat := 43
  const SAME: nat := 44
  const SALM: nat := 45
  const SAMC: nat := 46
  const SBIP: nat := 47
  const SIPS: nat := 48
  const SWIP: nat := 49
  const SBIN: nat := 50
  const SINS: nat := 51
  const SWIN: nat := 52
  const KICB: nat := 53
  const KICS: nat := 54
  const TICB: nat := 55
  const TICS: nat := 56
  const WILS: nat := 57
  const WISH: nat := 58
  const BUSH: nat := 59
  const SUSH: nat := 60
  const DROP: nat := 61
  const HECK: nat := 62
  const SLOG: nat := 63
  const BAST: nat := 64
  const SAST: nat := 65
  const BALT: nat := 66
  const SALT: nat := 67
  const SKIB: nat := 68
  const SKIS: nat := 69
  const SLIB: nat := 70
  const SLIS: nat := 71
  const SAVE: nat := 72
  const HILB: nat := 73
  const HILS: nat := 74
  const HINB: nat := 75
  const HINS: nat := 76
  const HILK: nat := 77
  const HILL: nat := 78
  const HINK: nat := 79
  const HINL: nat := 80
  const MUTH: nat := 81
  const KUTH: nat := 82
  const MUTT: nat := 83
  const KUTT: nat := 84
  const MUSM: nat := 85
  const KUSM: nat := 86
  const MUTB: nat := 87
  const MUTS: nat := 88
  const MITB: nat := 89
  const MITS: nat := 90
  const KUTB: nat := 91
  const KUTS: nat := 92
  const KITB: nat := 93
  const KITS: nat := 94
  const LAST: nat := 95
}
