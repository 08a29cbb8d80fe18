/** The interrupt check that `main` runs before every fetch (main.rs:75-123). The IE and
    IF registers are kept as five-field records; their byte encoding and the memory
    accessors that read and write them are not part of this model, so they are passed in
    and returned. */
module Interrupts {
  import opened Bytes
  import opened Memory
  import opened Gameboy

  /** One request or enable bit per interrupt source. */
  datatype InterruptFlags = InterruptFlags(vBlank: bool, lcd: bool, timer: bool, serial: bool, joypad: bool)

  /** `get_flags_from_byte(i_e.get_byte_from_flag() | i_f.get_byte_from_flag())`: the byte
      encoding keeps one bit per field, so the `|` of the bytes is the field-wise or. */
  function Combined(ie: InterruptFlags, iF: InterruptFlags): (r: InterruptFlags)
    ensures forall s: Source :: IsSet(r, s) <==> IsSet(ie, s) || IsSet(iF, s)
  {
    InterruptFlags(ie.vBlank || iF.vBlank, ie.lcd || iF.lcd, ie.timer || iF.timer,
                   ie.serial || iF.serial, ie.joypad || iF.joypad)
  }

  /** The `match interupts` of main.rs:80-115: the first set field, in declaration order,
      gives the call location, and IF with that field cleared is what is written back.
      Location 0 means no field is set; IF is then not written. */
  function InterruptCall(interrupts: InterruptFlags, iF: InterruptFlags): (u16, InterruptFlags)
  {
    if interrupts.vBlank then (0x40, iF.(vBlank := false))
    else if interrupts.lcd then (0x48, iF.(lcd := false))
    else if interrupts.timer then (0x50, iF.(timer := false))
    else if interrupts.serial then (0x58, iF.(serial := false))
    else if interrupts.joypad then (0x60, iF.(joypad := false))
    else (0x0, iF)
  }

  /** The whole check: with IME set and a location found, IME is cleared, PC is pushed and
      PC becomes the location. Returns the machine and the IF register afterwards. */
  function Dispatch(m: Machine, ie: InterruptFlags, iF: InterruptFlags): (Machine, InterruptFlags)
  {
    if m.ime then
      var (interruptCallLocation, newIf) := InterruptCall(Combined(ie, iF), iF);
      if interruptCallLocation != 0 then
        (m.(ime := false).PushStackWord(m.regs.pc).WithPC(interruptCallLocation), newIf)
      else (m, newIf)
    else (m, iF)
  }

  /** The five sources, in priority order, as an independent description of the check. */
  datatype Source = VBlank | Lcd | Timer | Serial | Joypad

  function Rank(s: Source): nat
  {
    match s
    case VBlank => 0
    case Lcd => 1
    case Timer => 2
    case Serial => 3
    case Joypad => 4
  }

  /** The handler address of a source: 0x40 plus 8 per rank. */
  function Vector(s: Source): (r: u16)
    ensures r == 0x40 + 8 * Rank(s)
  {
    match s
    case VBlank => 0x40
    case Lcd => 0x48
    case Timer => 0x50
    case Serial => 0x58
    case Joypad => 0x60
  }

  predicate IsSet(flags: InterruptFlags, s: Source)
  {
    match s
    case VBlank => flags.vBlank
    case Lcd => flags.lcd
    case Timer => flags.timer
    case Serial => flags.serial
    case Joypad => flags.joypad
  }

  /** `flags` with the field of `s` cleared. */
  function Clear(flags: InterruptFlags, s: Source): (r: InterruptFlags)
    ensures forall t: Source :: IsSet(r, t) <==> t != s && IsSet(flags, t)
  {
    match s
    case VBlank => flags.(vBlank := false)
    case Lcd => flags.(lcd := false)
    case Timer => flags.(timer := false)
    case Serial => flags.(serial := false)
    case Joypad => flags.(joypad := false)
  }

  /** `s` is set and no source of higher priority is. */
  predicate Selected(flags: InterruptFlags, s: Source)
  {
    IsSet(flags, s) && forall t: Source :: Rank(t) < Rank(s) ==> !IsSet(flags, t)
  }

  /** Whenever some source is set, exactly one source is selected. */
  lemma {:induction false} SelectionIsUnique(flags: InterruptFlags)
    ensures (exists s: Source :: IsSet(flags, s)) ==> exists s: Source :: Selected(flags, s)
    ensures forall s: Source, t: Source :: Selected(flags, s) && Selected(flags, t) ==> s == t
  {
    if flags.vBlank {
      assert Selected(flags, VBlank);
    } else if flags.lcd {
      assert Selected(flags, Lcd);
    } else if flags.timer {
      assert Selected(flags, Timer);
    } else if flags.serial {
      assert Selected(flags, Serial);
    } else if flags.joypad {
      assert Selected(flags, Joypad);
    }
    forall s: Source, t: Source | Selected(flags, s) && Selected(flags, t)
      ensures s == t
    {
      assert Rank(s) == Rank(t) ==> s == t;
    }
  }

  /** The `match` of the check finds the selected source: location 0 exactly when no
      source is set, and otherwise the vector of the selected source with its IF field
      cleared. */
  lemma {:induction false} InterruptCallFindsSelected(interrupts: InterruptFlags, iF: InterruptFlags)
    ensures var (location, newIf) := InterruptCall(interrupts, iF);
            (location == 0 <==> forall s: Source :: !IsSet(interrupts, s))
            && (location == 0 ==> newIf == iF)
            && forall s: Source :: Selected(interrupts, s) ==> location == Vector(s) && newIf == Clear(iF, s)
  {
    forall s: Source | Selected(interrupts, s)
      ensures InterruptCall(interrupts, iF) == (Vector(s), Clear(iF, s))
    {
      match s
      case VBlank =>
      case Lcd => assert !IsSet(interrupts, VBlank);
      case Timer => assert !IsSet(interrupts, VBlank) && !IsSet(interrupts, Lcd);
      case Serial => assert !IsSet(interrupts, VBlank) && !IsSet(interrupts, Lcd) && !IsSet(interrupts, Timer);
      case Joypad =>
        assert !IsSet(interrupts, VBlank) && !IsSet(interrupts, Lcd) && !IsSet(interrupts, Timer) && !IsSet(interrupts, Serial);
    }
    if InterruptCall(interrupts, iF).0 == 0 {
      forall s: Source ensures !IsSet(interrupts, s) {
        match s
        case VBlank => case Lcd => case Timer => case Serial => case Joypad =>
      }
    } else {
      assert IsSet(interrupts, VBlank) || IsSet(interrupts, Lcd) || IsSet(interrupts, Timer)
        || IsSet(interrupts, Serial) || IsSet(interrupts, Joypad);
    }
  }

  /** With IME clear the check changes nothing. */
  lemma NothingWithoutIME(m: Machine, ie: InterruptFlags, iF: InterruptFlags)
    requires !m.ime
    ensures Dispatch(m, ie, iF) == (m, iF)
  {
  }

  /** With no source set in IE | IF, the check changes nothing. */
  lemma NothingWhenNoneSet(m: Machine, ie: InterruptFlags, iF: InterruptFlags)
    requires forall s: Source :: !IsSet(Combined(ie, iF), s)
    ensures Dispatch(m, ie, iF) == (m, iF)
  {
    assert !IsSet(Combined(ie, iF), VBlank) && !IsSet(Combined(ie, iF), Lcd);
    assert !IsSet(Combined(ie, iF), Timer) && !IsSet(Combined(ie, iF), Serial);
    assert !IsSet(Combined(ie, iF), Joypad);
  }

  /** With IME set, the highest-priority source set in IE | IF is served: only its IF
      field is cleared, IME is cleared, the old PC is pushed and PC becomes its vector. */
  lemma {:induction false} HighestPriorityServed(m: Machine, ie: InterruptFlags, iF: InterruptFlags, s: Source)
    requires m.ime && Selected(Combined(ie, iF), s)
    ensures Dispatch(m, ie, iF) == (m.(ime := false).PushStackWord(m.regs.pc).WithPC(Vector(s)), Clear(iF, s))
  {
    var c := Combined(ie, iF);
    match s
    case VBlank =>
    case Lcd => assert !IsSet(c, VBlank);
    case Timer => assert !IsSet(c, VBlank) && !IsSet(c, Lcd);
    case Serial => assert !IsSet(c, VBlank) && !IsSet(c, Lcd) && !IsSet(c, Timer);
    case Joypad =>
      assert !IsSet(c, VBlank) && !IsSet(c, Lcd) && !IsSet(c, Timer) && !IsSet(c, Serial);
  }

  /** A source enabled in IE is served even when IF requests nothing, and IF is then left
      as it was: IE and IF are combined with `|`, not `&`. */
  lemma EnabledAloneIsServed(m: Machine)
    requires m.ime
    ensures var ie := InterruptFlags(true, false, false, false, false);
            var none := InterruptFlags(false, false, false, false, false);
            Dispatch(m, ie, none) == (m.(ime := false).PushStackWord(m.regs.pc).WithPC(0x40), none)
  {
  }

  /** With every source enabled and timer and joypad requested, v-blank is served (vector
      0x40) and IF keeps both requests, where an `&` combination would serve the timer. */
  lemma AllEnabledServesVBlank(m: Machine)
    requires m.ime
    ensures var ie := InterruptFlags(true, true, true, true, true);
            var iF := InterruptFlags(false, false, true, false, true);
            Dispatch(m, ie, iF) == (m.(ime := false).PushStackWord(m.regs.pc).WithPC(0x40), iF)
  {
  }
}
