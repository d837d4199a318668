/** The vocabulary of the on-chip OBI bus: words, requests, responses. */
module Obi {
  import opened Bits

  datatype Option<+T> = None | Some(value: T)

  /** A 32-bit data word, lane 0 (bits 7 to 0) first. */
  datatype Word = Word(b0: Byte, b1: Byte, b2: Byte, b3: Byte) {
    function Lane(k: nat): Byte
      requires k < 4
    {
      match k
      case 0 => b0
      case 1 => b1
      case 2 => b2
      case 3 => b3
    }

    function With(k: nat, b: Byte): (w: Word)
      requires k < 4
      ensures forall j :: 0 <= j < 4 ==> w.Lane(j) == if j == k then b else Lane(j)
    {
      match k
      case 0 => this.(b0 := b)
      case 1 => this.(b1 := b)
      case 2 => this.(b2 := b)
      case 3 => this.(b3 := b)
    }
  }

  const ZERO := Word(CLEAR, CLEAR, CLEAR, CLEAR)
  const ONES := Word(FULL, FULL, FULL, FULL)

  function WordAnd(x: Word, y: Word): Word {
    Word(And(x.b0, y.b0), And(x.b1, y.b1), And(x.b2, y.b2), And(x.b3, y.b3))
  }

  function WordOr(x: Word, y: Word): Word {
    Word(Or(x.b0, y.b0), Or(x.b1, y.b1), Or(x.b2, y.b2), Or(x.b3, y.b3))
  }

  function WordNot(x: Word): Word {
    Word(Not(x.b0), Not(x.b1), Not(x.b2), Not(x.b3))
  }

  /** Byte enables, one per lane. */
  datatype Enables = Enables(e0: bool, e1: bool, e2: bool, e3: bool) {
    predicate Lane(k: nat)
      requires k < 4
    {
      match k
      case 0 => e0
      case 1 => e1
      case 2 => e2
      case 3 => e3
    }

    predicate All() {
      e0 && e1 && e2 && e3
    }
  }

  /** The A-channel payload a host presents with its request line high. */
  datatype Request = Request(addr: bv32, we: bool, be: Enables, wdata: Word)

  /** The R-channel payload a device presents with its valid line high. */
  datatype Response = Response(rdata: Word, err: bool)
}
