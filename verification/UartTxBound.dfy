/**
 Why the simulation's decoder needs 17 clocks per bit. A single byte with only its last bit set is enough: below
 17 that bit is sampled before it has begun.
 */
module UartTxBound {
  import opened Obi
  import opened Bits
  import opened UartSpec
  import opened SimUart
  import opened UartTx

  /** Both ends idle, nothing sent, the baud counter within its period. */
  predicate Ready(k: Link, bit: nat) {
    && k.Ok() && k.tx.phase.Idle? && k.tx.queue == [] && k.tx.counter < bit && k.dec.phase.Idle?
    && k.pushed == k.reported == []
  }

  function Pushes(k: Link, bit: nat, pushes: seq<Option<Byte>>, n: nat): (k': Link)
    requires k.Ok() && n <= |pushes|
    ensures k'.Ok()
  {
    if n == 0 then k else LinkStep(Pushes(k, bit, pushes, n - 1), bit, pushes[n - 1])
  }

  /** Whatever is enqueued and when: what is reported is a prefix of it. */
  ghost predicate InOrder(bit: nat) {
    forall k: Link, pushes: seq<Option<Byte>> :: Ready(k, bit) ==> PushesInOrder(k, bit, pushes)
  }

  ghost predicate PushesInOrder(k: Link, bit: nat, pushes: seq<Option<Byte>>) {
    k.Ok() && Pushes(k, bit, pushes, |pushes|).reported <= Pushes(k, bit, pushes, |pushes|).pushed
  }

  lemma {:induction false} PushesStay(k: Link, bit: nat, pushes: seq<Option<Byte>>, n: nat)
    requires MIN_BIT <= bit <= COUNTER_MAX && Ready(k, bit) && n <= |pushes|
    ensures LinkOk(Pushes(k, bit, pushes, n), bit)
  {
    if n > 0 {
      PushesStay(k, bit, pushes, n - 1);
      hide LinkStep, LinkOk;
      LinkStays(Pushes(k, bit, pushes, n - 1), bit, pushes[n - 1]);
    }
  }

  lemma OkIsInOrder(k: Link, bit: nat)
    requires LinkOk(k, bit)
    ensures k.reported <= k.pushed
  {
    hide Past, Running, DecodesFrame;
    assert Logged(k, bit);
  }

  // ----- the run that fails -----

  const LAST_BIT: Byte := [false, false, false, false, false, false, false, true]

  const IDLE := Link(TX_RESET, DECODER_RESET, [], [])

  /** One byte and nothing else. */
  function OneByte(n: nat): (pushes: seq<Option<Byte>>)
    ensures |pushes| == n && forall i :: 0 <= i < n ==> pushes[i] == if i == 0 then Some(LAST_BIT) else None
  {
    seq(n, i => if i == 0 then Some(LAST_BIT) else None)
  }

  /** `n` parts of `width` clocks, for the ten parts of a frame. */
  function Parts(n: nat, width: nat): nat {
    if n == 0 then 0 else if n == 1 then width else if n == 2 then 2 * width else if n == 3 then 3 * width
    else if n == 4 then 4 * width else if n == 5 then 5 * width else if n == 6 then 6 * width
    else if n == 7 then 7 * width else if n == 8 then 8 * width else if n == 9 then 9 * width else 10 * width
  }

  /** The transmitter `n` clocks after reset, up to its stop bit. */
  predicate Sends(tx: Tx, n: nat, bit: nat) {
    && tx.Ok() && tx.counter < bit && tx.queue == (if n == 0 then [] else [LAST_BIT])
    && if n < bit then tx.phase.Idle? && tx.counter == n
       else (tx.phase.Start? || tx.phase.Data?) && tx.latch == LAST_BIT && n == bit + Parts(Slot(tx), bit) + tx.counter
  }

  /** The decoder at the same time, until it reports. */
  predicate Decodes(dec: Decoder, n: nat, bit: nat)
    requires bit > 0
  {
    var h := (bit - 1) / 2;
    && DecoderOk(dec)
    && if n <= bit then dec.phase.Idle?
       else if n <= bit + h then dec.phase.Start? && dec.ticks == n - bit - 1 && dec.val == CLEAR
       else if n <= bit + h + 8 * (bit - 1) then
         && dec.phase.Data? && dec.val == CLEAR && dec.ticks < bit - 1
         && n == bit + h + 1 + Parts(dec.bit, bit - 1) + dec.ticks
       else n <= bit + h + 9 * (bit - 1) ==>
         && dec.phase.Stop? && dec.val == CLEAR && n == bit + h + 1 + 8 * (bit - 1) + dec.ticks
  }

  /** When the decoder reports. */
  function Reported(bit: nat): nat
    requires bit > 0
  {
    bit + (bit - 1) / 2 + 9 * (bit - 1)
  }

  lemma SendsStays(tx: Tx, n: nat, bit: nat)
    requires 3 <= bit < MIN_BIT && n <= Reported(bit) && Sends(tx, n, bit)
    ensures Sends(TxStep(tx, bit, if n == 0 then Some(LAST_BIT) else None), n + 1, bit)
    ensures n < 9 * bit ==> (TxLine(tx) <==> n < bit)
  {
  }

  lemma LevelsClear(val: Byte, bit: nat)
    requires bit < 8 && val == CLEAR
    ensures OrBit(val, bit, false) == CLEAR
  {
  }

  lemma DecodesStays(dec: Decoder, n: nat, bit: nat, level: bool)
    requires 3 <= bit < MIN_BIT && n <= Reported(bit) && Decodes(dec, n, bit)
    requires n < 9 * bit ==> (level <==> n < bit)
    ensures var (dec', report) := DecoderTick(dec, bit, level);
            Decodes(dec', n + 1, bit) && report == if n == Reported(bit) then Some(CLEAR) else None
  {
    if dec.phase.Data? && dec.ticks + 1 == bit - 1 {
      LevelsClear(dec.val, dec.bit);
    }
    hide OrBit;
  }

  ghost predicate Failing(k: Link, n: nat, bit: nat)
    requires bit > 0
  {
    && Sends(k.tx, n, bit) && Decodes(k.dec, n, bit)
    && k.pushed == (if n == 0 then [] else [LAST_BIT])
    && k.reported == if n <= Reported(bit) then [] else [CLEAR]
  }

  lemma FailingStays(k: Link, n: nat, bit: nat)
    requires 3 <= bit < MIN_BIT && n <= Reported(bit) && Failing(k, n, bit)
    ensures Failing(LinkStep(k, bit, if n == 0 then Some(LAST_BIT) else None), n + 1, bit)
  {
    hide TxStep, TxLine, DecoderTick, Sends, Decodes, Reported;
    FailingIsOk(k, n, bit);
    SendsStays(k.tx, n, bit);
    DecodesStays(k.dec, n, bit, TxLine(k.tx));
  }

  lemma FailingIsOk(k: Link, n: nat, bit: nat)
    requires bit > 0 && Failing(k, n, bit)
    ensures k.Ok()
  {
  }

  lemma FailsFirst(bit: nat)
    requires 3 <= bit < MIN_BIT
    ensures Failing(IDLE, 0, bit)
  {
  }

  lemma {:induction false} PushesFail(bit: nat, pushes: seq<Option<Byte>>, n: nat)
    requires 3 <= bit < MIN_BIT && n <= |pushes| <= Reported(bit) + 1 && pushes == OneByte(|pushes|)
    ensures Failing(Pushes(IDLE, bit, pushes, n), n, bit)
  {
    hide Failing, LinkStep, Reported;
    if n == 0 {
      FailsFirst(bit);
    } else {
      PushesFail(bit, pushes, n - 1);
      FailingStays(Pushes(IDLE, bit, pushes, n - 1), n - 1, bit);
    }
  }

  /** From three clocks per bit up to 16 the byte is reported as zero. */
  lemma LastBitMissed(bit: nat)
    requires 3 <= bit < MIN_BIT
    ensures var k := Pushes(IDLE, bit, OneByte(Reported(bit) + 1), Reported(bit) + 1);
            Ready(IDLE, bit) && k.pushed == [LAST_BIT] && k.reported == [CLEAR]
  {
    PushesFail(bit, OneByte(Reported(bit) + 1), Reported(bit) + 1);
    hide Pushes, Sends, Decodes;
  }

  // ----- rates at which the decoder never samples -----

  predicate Stuck(k: Link) {
    k.Ok() && k.reported == [] && (k.dec.phase.Idle? || k.dec.phase.Start?)
  }

  lemma {:induction false} NothingReported(k: Link, bit: nat, pushes: seq<Option<Byte>>, n: nat)
    requires 0 < bit <= 2 && Ready(k, bit) && n <= |pushes|
    ensures Stuck(Pushes(k, bit, pushes, n))
  {
    if n > 0 {
      NothingReported(k, bit, pushes, n - 1);
      hide TxStep, TxLine, OrBit;
    }
  }

  /**
   The bound is exact: what is reported is always a prefix of what was enqueued if and only if there are at
   least 17 clocks per bit, or so few that the decoder never gets past the start bit.
   */
  lemma ExactlyFrom17(bit: nat)
    requires 0 < bit <= COUNTER_MAX
    ensures InOrder(bit) <==> bit <= 2 || bit >= MIN_BIT
  {
    hide Pushes, LinkOk;
    if bit <= 2 {
      forall k: Link, pushes: seq<Option<Byte>> | Ready(k, bit)
        ensures PushesInOrder(k, bit, pushes)
      {
        NothingReported(k, bit, pushes, |pushes|);
      }
    } else if bit >= MIN_BIT {
      forall k: Link, pushes: seq<Option<Byte>> | Ready(k, bit)
        ensures PushesInOrder(k, bit, pushes)
      {
        PushesStay(k, bit, pushes, |pushes|);
        OkIsInOrder(Pushes(k, bit, pushes, |pushes|), bit);
      }
    } else {
      LastBitMissed(bit);
      assert CLEAR[7] != LAST_BIT[7];
      assert [CLEAR][0] != [LAST_BIT][0];
      assert !PushesInOrder(IDLE, bit, OneByte(Reported(bit) + 1));
    }
  }
}
