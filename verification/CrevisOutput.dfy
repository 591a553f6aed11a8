/** The Crevis output word: the node's shadow register against the 16-bit image the
    fieldbus head holds, in register mode and in coil mode, with requests that may
    fail before or after they took effect. */
module CrevisOutput {
  import opened Bytes
  import opened Bits
  import opened ModbusBits

  datatype Mode = Register | Coil

  /** What became of one request: answered, carried out but the answer lost, or never
      carried out. */
  datatype Outcome = Done | ReplyLost | NotSent

  const WIDTH: nat := 16

  /** A command for one output that took effect. */
  datatype Applied = Applied(bit: nat, on: bool)

  /** The image after a series of commands. */
  function After(image: nat, cmds: seq<Applied>): nat {
    if cmds == [] then image
    else SetBit(After(image, cmds[..|cmds| - 1]), cmds[|cmds| - 1].bit, cmds[|cmds| - 1].on)
  }

  /** Each output shows the last command for it that took effect, or what it showed
      at the start. */
  lemma {:induction false} LastCommandShows(image: nat, cmds: seq<Applied>, bit: nat, k: nat)
    requires k < |cmds| && cmds[k].bit == bit
    requires forall j :: k < j < |cmds| ==> cmds[j].bit != bit
    ensures Bit(After(image, cmds), bit) == cmds[k].on
    decreases |cmds|
  {
    var last := |cmds| - 1;
    SetBitBits(After(image, cmds[..last]), cmds[last].bit, cmds[last].on, bit);
    if k < last {
      LastCommandShows(image, cmds[..last], bit, k);
    }
  }

  lemma {:induction false} UncommandedStays(image: nat, cmds: seq<Applied>, bit: nat)
    requires forall j :: 0 <= j < |cmds| ==> cmds[j].bit != bit
    ensures Bit(After(image, cmds), bit) == Bit(image, bit)
    decreases |cmds|
  {
    if cmds != [] {
      var last := |cmds| - 1;
      SetBitBits(After(image, cmds[..last]), cmds[last].bit, cmds[last].on, bit);
      UncommandedStays(image, cmds[..last], bit);
    }
  }

  /** The word with every listed output off; an output beyond the word is not there. */
  function Cleared(image: nat, bits: seq<nat>): nat {
    if bits == [] then image
    else
      var before := Cleared(image, bits[..|bits| - 1]);
      if bits[|bits| - 1] < WIDTH then SetBit(before, bits[|bits| - 1], false) else before
  }

  lemma {:induction false} ClearedBound(image: nat, bits: seq<nat>)
    requires image < Pow2(WIDTH)
    ensures Cleared(image, bits) < Pow2(WIDTH)
    decreases |bits|
  {
    if bits != [] {
      var before := bits[..|bits| - 1];
      ClearedBound(image, before);
      if bits[|bits| - 1] < WIDTH {
        SetBitBound(Cleared(image, before), bits[|bits| - 1], false, WIDTH);
      }
    }
  }

  /** Clearing turns off exactly the listed outputs. */
  lemma {:induction false} ClearedBits(image: nat, bits: seq<nat>, j: nat)
    requires j < WIDTH
    ensures Bit(Cleared(image, bits), j) == (Bit(image, j) && j !in bits)
    decreases |bits|
  {
    if bits != [] {
      var before := bits[..|bits| - 1];
      ClearedBits(image, before, j);
      SetBitBits(Cleared(image, before), bits[|bits| - 1], false, j);
    }
  }

  /** Only listed outputs of the word differ, and those only by being off. */
  ghost predicate Fewer(now: nat, image: nat, bits: seq<nat>) {
    && (forall j: nat :: Bit(now, j) ==> Bit(image, j))
    && (forall j: nat :: j < WIDTH && j !in bits ==> Bit(now, j) == Bit(image, j))
  }

  lemma ClearedFewer(image: nat, bits: seq<nat>)
    requires image < Pow2(WIDTH)
    ensures Fewer(Cleared(image, bits), image, bits)
  {
    ClearedBound(image, bits);
    forall j: nat
      ensures Bit(Cleared(image, bits), j) ==> Bit(image, j)
      ensures j < WIDTH && j !in bits ==> Bit(Cleared(image, bits), j) == Bit(image, j)
    {
      if j < WIDTH {
        ClearedBits(image, bits, j);
      } else {
        HighBitsClear(Cleared(image, bits), WIDTH, j);
      }
    }
  }

  /** A bit beyond an n-bit number is not set. */
  lemma {:induction false} HighBitsClear(w: nat, n: nat, j: nat)
    requires w < Pow2(n) && n <= j
    ensures !Bit(w, j)
    decreases n
  {
    if n == 0 {
      ZeroBits(j);
    } else {
      HighBitsClear(w / 2, n - 1, j - 1);
    }
  }

  /** Clearing a bit that is not set changes nothing. */
  lemma {:induction false} ClearClear(w: nat, j: nat)
    requires !Bit(w, j)
    ensures SetBit(w, j, false) == w
    decreases j
  {
    if j > 0 {
      ClearClear(w / 2, j - 1);
    }
  }

  /** The fieldbus head with the client that talks to it. */
  class Head {
    var image: nat
    const beyond: nat -> bool

    ghost predicate Valid()
      reads this
    {
      image < Pow2(WIDTH)
    }

    function Coil(i: nat): bool
      reads this
    {
      if i < WIDTH then Bit(image, i) else beyond(i)
    }

    constructor (initial: nat, others: nat -> bool)
      requires initial < Pow2(WIDTH)
      ensures Valid() && image == initial
    {
      image, beyond := initial, others;
    }

    /** Function 01: the answer is packed by the head and unpacked by the client. */
    method ReadCoils(quantity: nat, outcome: Outcome) returns (ok: bool, values: seq<bool>)
      ensures ok <==> outcome == Done && 1 <= quantity <= 2000
      ensures ok ==> |values| == quantity && forall i :: 0 <= i < quantity ==> values[i] == Coil(i)
    {
      if outcome != Done || quantity == 0 || quantity > 2000 {
        return false, [];
      }
      var coils := [];
      for i := 0 to quantity
        invariant |coils| == i && forall j :: 0 <= j < i ==> coils[j] == Coil(j)
      {
        coils := coils + [Coil(i)];
      }
      var body := Packed(coils);
      UnpackInvertsPack(coils);
      values := Unpack(body, quantity);
      ok := true;
    }

    /** Function 06 on the output register. */
    method WriteRegister(value: nat, outcome: Outcome) returns (ok: bool)
      requires value < Pow2(WIDTH)
      modifies this`image
      ensures ok <==> outcome == Done
      ensures image == if outcome == NotSent then old(image) else value
    {
      if outcome != NotSent {
        image := value;
      }
      ok := outcome == Done;
    }

    /** Function 05 on the coil `bit` places after the first. */
    method WriteCoil(bit: nat, on: bool, outcome: Outcome) returns (ok: bool)
      requires Valid()
      modifies this`image
      ensures Valid() && (ok <==> outcome == Done)
      ensures image == if outcome == NotSent || bit >= WIDTH then old(image) else SetBit(old(image), bit, on)
    {
      if outcome != NotSent && bit < WIDTH {
        SetBitBound(image, bit, on, WIDTH);
        image := SetBit(image, bit, on);
      }
      ok := outcome == Done;
    }
  }

  datatype Config = Config(
    mode: Mode,
    leds: seq<nat>,
    charging: nat,
    ledsOffOnShutdown: bool,
    chargingOffOnShutdown: bool)

  /** The outputs that shutting down turns off. */
  function OffAtShutdown(c: Config): seq<nat> {
    (if c.ledsOffOnShutdown then c.leds else []) + (if c.chargingOffOnShutdown then [c.charging] else [])
  }

  /** Turned off: the lamps' outputs if they are to go off, the charging output if it is. */
  predicate GoesOff(c: Config, j: nat) {
    (c.ledsOffOnShutdown && j in c.leds) || (c.chargingOffOnShutdown && j == c.charging)
  }

  lemma ShutdownBits(c: Config, image: nat)
    ensures forall j: nat :: j < WIDTH ==>
              Bit(Cleared(image, OffAtShutdown(c)), j) == (Bit(image, j) && !GoesOff(c, j))
  {
    forall j: nat | j < WIDTH
      ensures Bit(Cleared(image, OffAtShutdown(c)), j) == (Bit(image, j) && !GoesOff(c, j))
    {
      ClearedBits(image, OffAtShutdown(c), j);
    }
  }

  class CrevisNode {
    const cfg: Config
    const head: Head
    var readback: nat
    var shadow: nat
    var shadowValid: bool

    /** A shadow marked valid equals the image, and a poll reads at least the whole
        word in register mode and every output in use. */
    ghost predicate Valid()
      reads this, head
    {
      && head.Valid()
      && (cfg.mode == Register && shadowValid ==> shadow == head.image)
      && (cfg.mode == Register ==> readback >= WIDTH)
      && cfg.charging < readback && forall i :: 0 <= i < |cfg.leds| ==> cfg.leds[i] < readback
    }

    constructor (c: Config, h: Head)
      requires h.Valid()
      ensures Valid() && cfg == c && head == h
    {
      cfg, head := c, h;
      shadow, shadowValid := 0, false;
      readback := 1;
      new;
      for i := 0 to |c.leds|
        modifies this`readback
        invariant readback >= 1 && forall j :: 0 <= j < i ==> c.leds[j] < readback
      {
        readback := if readback < c.leds[i] + 1 then c.leds[i] + 1 else readback;
      }
      readback := if readback < c.charging + 1 then c.charging + 1 else readback;
      if c.mode == Register {
        readback := if readback < WIDTH then WIDTH else readback;
      }
    }

    /** Rebuilds the word from coil values; bits not read are zero. */
    method Rebuild(coils: seq<bool>) returns (word: nat)
      ensures word < Pow2(WIDTH)
      ensures forall j: nat :: j < WIDTH ==> Bit(word, j) == (j < |coils| && coils[j])
    {
      hide Pow2;
      word := 0;
      var bit := 0;
      forall j: nat | j < WIDTH
        ensures !Bit(0, j)
      {
        ZeroBits(j);
      }
      while bit < |coils| && bit < WIDTH
        invariant 0 <= bit <= WIDTH && bit <= |coils| && word < Pow2(WIDTH)
        invariant forall j: nat :: j < WIDTH ==> Bit(word, j) == (j < bit && coils[j])
      {
        if coils[bit] {
          ghost var before := word;
          SetBitBound(word, bit, true, WIDTH);
          word := SetBit(word, bit, true);
          forall j: nat | j < WIDTH
            ensures Bit(word, j) == (j < bit + 1 && coils[j])
          {
            SetBitBits(before, bit, true, j);
          }
        }
        bit := bit + 1;
      }
    }

    /** A word rebuilt from enough coils is the image. */
    method Resync(coils: seq<bool>)
      requires head.Valid() && |coils| >= WIDTH
      requires forall i :: 0 <= i < |coils| ==> coils[i] == head.Coil(i)
      modifies this`shadow, this`shadowValid
      ensures shadowValid && shadow == head.image
    {
      shadow := Rebuild(coils);
      shadowValid := true;
      SameBits(shadow, head.image, WIDTH);
    }

    method SyncOutputShadow(outcome: Outcome) returns (ok: bool)
      requires Valid()
      modifies this`shadow, this`shadowValid
      ensures Valid() && (ok <==> outcome == Done) && (ok ==> shadowValid && shadow == head.image)
    {
      var coils;
      ok, coils := head.ReadCoils(WIDTH, outcome);
      if ok {
        Resync(coils);
      }
    }

    /** One output command.  In either mode it leaves the image as it was or changes
        exactly its bit, and success means it changed it. */
    method SetOutput(bit: int, on: bool, sync: Outcome, write: Outcome) returns (ok: bool, ghost applied: bool)
      requires Valid()
      modifies this`shadow, this`shadowValid, head`image
      ensures Valid()
      ensures ok ==> applied
      ensures applied ==> 0 <= bit < WIDTH && head.image == SetBit(old(head.image), bit, on)
      ensures !applied ==> head.image == old(head.image)
      ensures ok <==> 0 <= bit < WIDTH && write == Done
                      && (cfg.mode == Register && !old(shadowValid) ==> sync == Done)
    {
      applied := false;
      if bit < 0 || bit >= WIDTH {
        return false, false;
      }
      if cfg.mode == Register {
        if !shadowValid {
          var synced := SyncOutputShadow(sync);
          if !synced {
            return false, false;
          }
        }
        SetBitBound(shadow, bit, on, WIDTH);
        shadow := SetBit(shadow, bit, on);
        ok := head.WriteRegister(shadow, write);
        if !ok {
          shadowValid := false;
        }
      } else {
        ok := head.WriteCoil(bit, on, write);
      }
      applied := write != NotSent;
    }

    /** One poll: the image stays, the shadow is renewed, and the published states are
        the outputs as they are. */
    method Poll(outcome: Outcome) returns (ok: bool, leds: seq<bool>, charging: bool)
      requires Valid()
      modifies this`shadow, this`shadowValid
      ensures Valid() && (ok <==> outcome == Done && readback <= 2000)
      ensures ok && cfg.mode == Register ==> shadowValid && shadow == head.image
      ensures ok ==> charging == head.Coil(cfg.charging) && |leds| == |cfg.leds|
      ensures ok ==> forall i :: 0 <= i < |leds| ==> leds[i] == head.Coil(cfg.leds[i])
    {
      var coils;
      leds, charging := [], false;
      ok, coils := head.ReadCoils(readback, outcome);
      if ok {
        if cfg.mode == Register {
          Resync(coils);
        }
        for i := 0 to |cfg.leds|
          invariant |leds| == i && forall j :: 0 <= j < i ==> leds[j] == head.Coil(cfg.leds[j])
        {
          leds := leds + [cfg.leds[i] < |coils| && coils[cfg.leds[i]]];
        }
        charging := cfg.charging < |coils| && coils[cfg.charging];
      }
    }

    /** Register mode clears the bits in the shadow and writes it once. */
    method ShutdownRegister(sync: Outcome, write: Outcome)
      requires Valid() && cfg.mode == Register
      modifies this`shadow, this`shadowValid, head`image
      ensures head.Valid()
      ensures sync == Done && write == Done ==> head.image == Cleared(old(head.image), OffAtShutdown(cfg))
      ensures head.image == old(head.image) || head.image == Cleared(old(head.image), OffAtShutdown(cfg))
    {
      if !cfg.ledsOffOnShutdown && !cfg.chargingOffOnShutdown {
        return;
      }
      if !shadowValid {
        var synced := SyncOutputShadow(sync);
        if !synced {
          return;
        }
      }
      ghost var word := shadow;
      hide Pow2;
      if cfg.ledsOffOnShutdown {
        for i := 0 to |cfg.leds|
          modifies this`shadow
          invariant shadow == Cleared(word, cfg.leds[..i])
        {
          assert cfg.leds[..i + 1][..i] == cfg.leds[..i];
          ClearBit(cfg.leds[i], word, cfg.leds[..i]);
        }
        assert cfg.leds[..|cfg.leds|] == cfg.leds;
      }
      if cfg.chargingOffOnShutdown {
        ghost var before := if cfg.ledsOffOnShutdown then cfg.leds else [];
        assert OffAtShutdown(cfg)[..|before|] == before;
        ClearBit(cfg.charging, word, before);
      } else {
        assert OffAtShutdown(cfg) == cfg.leds;
      }
      ClearedBound(word, OffAtShutdown(cfg));
      var ok := head.WriteRegister(shadow, write);
    }

    /** One `&= ~(1 << bit)`: nothing happens to a word that has no such bit. */
    method ClearBit(bit: nat, ghost word: nat, ghost before: seq<nat>)
      requires word < Pow2(WIDTH) && shadow == Cleared(word, before)
      modifies this`shadow
      ensures shadow == Cleared(word, before + [bit])
    {
      ClearedBound(word, before);
      assert (before + [bit])[..|before|] == before;
      if bit >= WIDTH {
        HighBitsClear(shadow, WIDTH, bit);
        ClearClear(shadow, bit);
      }
      shadow := SetBit(shadow, bit, false);
    }

    /** Coil mode writes each coil in turn, whatever becomes of the others. */
    method ShutdownCoils(writes: nat -> Outcome)
      requires Valid() && cfg.mode == Coil
      modifies head`image
      ensures head.Valid()
      ensures (forall k: nat :: writes(k) == Done) ==> head.image == Cleared(old(head.image), OffAtShutdown(cfg))
      ensures Fewer(head.image, old(head.image), OffAtShutdown(cfg))
    {
      ghost var image, before := head.image, if cfg.ledsOffOnShutdown then cfg.leds else [];
      assert OffAtShutdown(cfg) == if cfg.chargingOffOnShutdown then before + [cfg.charging] else before;
      hide Pow2, OffAtShutdown;
      if cfg.ledsOffOnShutdown {
        for i := 0 to |cfg.leds|
          modifies head`image
          invariant head.Valid() && Fewer(head.image, image, cfg.leds[..i])
          invariant (forall k: nat :: writes(k) == Done) ==> head.image == Cleared(image, cfg.leds[..i])
        {
          assert cfg.leds[..i + 1] == cfg.leds[..i] + [cfg.leds[i]];
          SwitchOff(cfg.leds[i], writes(i), image, cfg.leds[..i]);
        }
        assert cfg.leds[..|cfg.leds|] == cfg.leds;
      }
      if cfg.chargingOffOnShutdown {
        SwitchOff(cfg.charging, writes(|cfg.leds|), image, before);
      }
    }

    method SwitchOff(bit: nat, outcome: Outcome, ghost image: nat, ghost before: seq<nat>)
      requires head.Valid() && Fewer(head.image, image, before)
      modifies head`image
      ensures head.Valid() && Fewer(head.image, image, before + [bit])
      ensures old(head.image) == Cleared(image, before) && outcome == Done ==>
                head.image == Cleared(image, before + [bit])
    {
      ghost var was := head.image;
      var ok := head.WriteCoil(bit, false, outcome);
      assert (before + [bit])[..|before|] == before;
      forall j: nat
        ensures Bit(head.image, j) ==> Bit(was, j)
        ensures j != bit ==> Bit(head.image, j) == Bit(was, j)
      {
        SetBitBits(was, bit, false, j);
      }
    }

    /** With every request answered, shutting down leaves the same image in both modes:
        exactly the chosen outputs are off. */
    method OnShutdown(sync: Outcome, writes: nat -> Outcome)
      requires Valid()
      modifies this`shadow, this`shadowValid, head`image
      ensures head.Valid()
      ensures sync == Done && (forall k: nat :: writes(k) == Done) ==>
                head.image == Cleared(old(head.image), OffAtShutdown(cfg))
      ensures sync == Done && (forall k: nat :: writes(k) == Done) ==>
                forall j: nat :: j < WIDTH ==> Bit(head.image, j) == (Bit(old(head.image), j) && !GoesOff(cfg, j))
      ensures forall j: nat :: j < WIDTH && !GoesOff(cfg, j) ==> Bit(head.image, j) == Bit(old(head.image), j)
      ensures forall j: nat :: Bit(head.image, j) ==> Bit(old(head.image), j)
      ensures Fewer(head.image, old(head.image), OffAtShutdown(cfg))
    {
      ShutdownBits(cfg, head.image);
      assert forall j :: j in OffAtShutdown(cfg) <==> GoesOff(cfg, j);
      hide Bit, Cleared, OffAtShutdown, GoesOff;
      if cfg.mode == Register {
        ShutdownRegister(sync, writes(0));
        ClearedFewer(old(head.image), OffAtShutdown(cfg));
      } else {
        ShutdownCoils(writes);
      }
    }
  }

  /* ---- whole runs ---- */

  datatype Op = Command(bit: int, on: bool, sync: Outcome, write: Outcome) | Polled(outcome: Outcome)

  predicate InWord(op: Op) { op.Command? && 0 <= op.bit < WIDTH }

  /** The commands that took effect, in order. */
  function Effective(ops: seq<Op>, applied: seq<bool>): seq<Applied>
    requires |applied| == |ops|
  {
    if ops == [] then []
    else
      var last := |ops| - 1;
      Effective(ops[..last], applied[..last]) +
      if applied[last] && InWord(ops[last]) then [Applied(ops[last].bit, ops[last].on)] else []
  }

  lemma NothingApplied(image: nat)
    ensures After(image, Effective([], [])) == image
  {
  }

  lemma EffectiveStep(image: nat, ops: seq<Op>, applied: seq<bool>, op: Op, took: bool)
    requires |applied| == |ops|
    ensures After(image, Effective(ops + [op], applied + [took]))
            == if took && InWord(op) then SetBit(After(image, Effective(ops, applied)), op.bit, op.on)
               else After(image, Effective(ops, applied))
  {
    hide SetBit;
    assert (ops + [op])[..|ops|] == ops && (applied + [took])[..|ops|] == applied;
    var before := Effective(ops, applied);
    if took && InWord(op) {
      assert (before + [Applied(op.bit, op.on)])[..|before|] == before;
    } else {
      assert before + [] == before;
    }
  }

  predicate Answered(op: Op) {
    match op
    case Command(_, _, sync, write) => sync == Done && write == Done
    case Polled(_) => true
  }

  /** Any run, in either mode: the image is what the commands that took effect make of
      it, and every answered command for an output of the word took effect.  So both
      modes leave the same image after the same answered commands. */
  method Run(n: CrevisNode, ops: seq<Op>) returns (ghost applied: seq<bool>)
    requires n.Valid()
    modifies n`shadow, n`shadowValid, n.head`image
    ensures n.Valid() && |applied| == |ops|
    ensures n.head.image == After(old(n.head.image), Effective(ops, applied))
    ensures forall i :: 0 <= i < |ops| && Answered(ops[i]) ==> applied[i] == InWord(ops[i])
  {
    hide After, Effective, SetBit, Bit, Pow2;
    applied := [];
    assert ops[..0] == [];
    NothingApplied(n.head.image);
    for i := 0 to |ops|
      invariant n.Valid() && |applied| == i
      invariant n.head.image == After(old(n.head.image), Effective(ops[..i], applied))
      invariant forall j :: 0 <= j < i && Answered(ops[j]) ==> applied[j] == InWord(ops[j])
    {
      assert ops[..i + 1] == ops[..i] + [ops[i]];
      ghost var took := false;
      match ops[i] {
        case Command(bit, on, sync, write) =>
          var ok;
          ok, took := n.SetOutput(bit, on, sync, write);
        case Polled(outcome) =>
          var ok, leds, charging := n.Poll(outcome);
      }
      EffectiveStep(old(n.head.image), ops[..i], applied, ops[i], took);
      applied := applied + [took];
    }
    assert ops[..|ops|] == ops;
  }

  /** The same answered commands through a node in each mode. */
  method BothModes(c: Config, image: nat, others: nat -> bool, ops: seq<Op>) returns (register: nat, coil: nat)
    requires image < Pow2(WIDTH) && forall i :: 0 <= i < |ops| ==> Answered(ops[i])
    ensures register == coil == After(image, Effective(ops, seq(|ops|, i requires 0 <= i < |ops| => InWord(ops[i]))))
  {
    hide After, Effective, SetBit, Bit, Pow2;
    var h := new Head(image, others);
    var k := new Head(image, others);
    var n := new CrevisNode(c.(mode := Register), h);
    var m := new CrevisNode(c.(mode := Coil), k);
    ghost var all := seq(|ops|, i requires 0 <= i < |ops| => InWord(ops[i]));
    ghost var a := Run(n, ops);
    assert a == all;
    ghost var b := Run(m, ops);
    assert b == all;
    register, coil := h.image, k.image;
  }
}
