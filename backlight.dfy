/**
 * The `Backlight` controller: brightness as a percentage and power as a switch, over the
 * attribute files of one of four board families.
 */
module RpiBacklight {
  import opened Failures
  import opened Attributes
  import opened Scaling
  import opened Fading

  datatype BoardType = RaspberryPi | TinkerBoard | TinkerBoard2 | MicrosoftSurfaceRT

  /** The Raspberry Pi display and the Surface RT share the standard backlight class files. */
  predicate IsPiFamily(board: BoardType) {
    board == RaspberryPi || board == MicrosoftSurfaceRT
  }

  /** The attribute the brightness setter writes. */
  function BrightnessFile(board: BoardType): string {
    if IsPiFamily(board) then "brightness" else "tinker_mcu_bl"
  }

  /** The attribute the brightness getter reads. */
  function BrightnessReadFile(board: BoardType): string {
    if IsPiFamily(board) then "actual_brightness" else "tinker_mcu_bl"
  }

  /** The `brightness` getter: the read attribute, normalised against the cached ceiling. */
  function BrightnessOf(board: BoardType, ceiling: int, d: Directory): (r: Result<int>)
    ensures r.Ok? ==> 0 <= r.value <= 100
  {
    match ReadAttribute(d, BrightnessReadFile(board))
    case Ok(raw) => Normalize(raw, ceiling)
    case Err(e) => Err(e)
  }

  /** The attribute both power accessors use. */
  function PowerFile(board: BoardType): string {
    if IsPiFamily(board) then "bl_power" else "tinker_mcu_bl"
  }

  /** The `power` getter: `bl_power` is 0 when on (Pi family); `tinker_mcu_bl` is nonzero when on (Tinker). */
  function PowerOf(board: BoardType, d: Directory): (r: Result<bool>)
    ensures r.Ok? <==> ReadAttribute(d, PowerFile(board)).Ok?
    ensures r.Err? ==> r.error == FileMissing(PowerFile(board))
    ensures IsPiFamily(board) ==> (r == Ok(true) <==> ReadAttribute(d, "bl_power") == Ok(0))
    ensures !IsPiFamily(board) ==> (r == Ok(false) <==> ReadAttribute(d, "tinker_mcu_bl") == Ok(0))
  {
    match ReadAttribute(d, PowerFile(board))
    case Ok(v) => if IsPiFamily(board) then Ok(v == 0) else Ok(v != 0)
    case Err(e) => Err(e)
  }

  /** The writes of a fade along the given percentages, each denormalised. */
  function FadeWrites(board: BoardType, ceiling: int, path: seq<int>): (ws: seq<Write>)
    ensures |ws| == |path|
    ensures forall i :: 0 <= i < |ws| ==> ws[i].0 == BrightnessFile(board) && 0 <= ws[i].1 <= 255
  {
    seq(|path|, i requires 0 <= i < |path| => (BrightnessFile(board), Denormalize(path[i], ceiling)))
  }

  /** One more step of a fade is one more write, applied last. */
  lemma FadeWritesSnoc(board: BoardType, ceiling: int, d: Directory, path: seq<int>, next: int)
    ensures FadeWrites(board, ceiling, path + [next])
         == FadeWrites(board, ceiling, path) + [(BrightnessFile(board), Denormalize(next, ceiling))]
    ensures ApplyWrites(d, FadeWrites(board, ceiling, path + [next]))
         == WriteAttribute(ApplyWrites(d, FadeWrites(board, ceiling, path)), BrightnessFile(board), Denormalize(next, ceiling))
  {
    var w := (BrightnessFile(board), Denormalize(next, ceiling));
    assert FadeWrites(board, ceiling, path + [next]) == FadeWrites(board, ceiling, path) + [w];
    ApplyWritesSnoc(d, FadeWrites(board, ceiling, path), w);
  }

  /**
   * The writes the `brightness` setter performs for an integer target, or the error it
   * raises before writing anything.
   */
  function BrightnessWrites(board: BoardType, ceiling: int, fade: real, d: Directory, value: int): (r: Result<seq<Write>>)
    ensures r.Ok? ==> forall i :: 0 <= i < |r.value| ==> r.value[i].0 == BrightnessFile(board) && 0 <= r.value[i].1 <= 255
    ensures r.Ok? && fade <= 0.0 ==> |r.value| == 1
  {
    if value < 0 || value > 100 then Err(OutOfRange(value))
    else if fade > 0.0 then
      match BrightnessOf(board, ceiling, d)
      case Ok(current) => Ok(FadeWrites(board, ceiling, FadePath(current, value)))
      case Err(e) => Err(e)
    else Ok([(BrightnessFile(board), Denormalize(value, ceiling))])
  }

  /** The write of the `power` setter: `bl_power` = 0 / 1 (Pi family), `tinker_mcu_bl` = 255 / 0 (Tinker). */
  function PowerWrites(board: BoardType, on: bool): (ws: seq<Write>)
    ensures |ws| == 1 && ws[0].0 == PowerFile(board)
    ensures IsPiFamily(board) ==> (ws[0].1 == 0 <==> on)
    ensures !IsPiFamily(board) ==> (ws[0].1 != 0 <==> on)
  {
    [(PowerFile(board), if IsPiFamily(board) then (if on then 0 else 1) else (if on then 255 else 0))]
  }

  /** The state a sequence of property assignments works on: the fade duration, the directory, and the writes so far. */
  datatype Snapshot = Snapshot(fade: real, sysfs: Directory, log: seq<Write>)

  /** One statement of a `with backlight.fade(...)` block: an assignment to one of the controller's properties. */
  datatype Op =
    | AssignBrightness(value: int)
    | AssignPower(on: bool)
    | AssignFadeDuration(duration: real)

  /** How the statements of a block end: normally, or by raising (the state is then the one at the raise). */
  datatype Run = Finished(state: Snapshot) | Raised(state: Snapshot, error: Error)

  /** The effect of one assignment, or the error it raises (with nothing changed). */
  function OpStep(board: BoardType, ceiling: int, s: Snapshot, op: Op): (r: Result<Snapshot>)
    ensures r.Err? <==>
      (op.AssignBrightness? && BrightnessWrites(board, ceiling, s.fade, s.sysfs, op.value).Err?) ||
      (op.AssignFadeDuration? && op.duration < 0.0)
    ensures r.Ok? ==> s.log <= r.value.log
    ensures r.Ok? && !op.AssignFadeDuration? ==> r.value.fade == s.fade
    ensures r.Ok? && op.AssignFadeDuration? ==> r.value == s.(fade := op.duration)
  {
    match op
    case AssignBrightness(v) =>
      (match BrightnessWrites(board, ceiling, s.fade, s.sysfs, v)
       case Ok(ws) => Ok(s.(sysfs := ApplyWrites(s.sysfs, ws), log := s.log + ws))
       case Err(e) => Err(e))
    case AssignPower(on) =>
      Ok(s.(sysfs := ApplyWrites(s.sysfs, PowerWrites(board, on)), log := s.log + PowerWrites(board, on)))
    case AssignFadeDuration(d) =>
      if d < 0.0 then Err(NegativeDuration(d)) else Ok(s.(fade := d))
  }

  /** The statements run in order; the first that raises stops the block. */
  function RunBody(board: BoardType, ceiling: int, s: Snapshot, body: seq<Op>): (r: Run)
    ensures s.log <= r.state.log
    ensures (forall i :: 0 <= i < |body| ==> body[i].AssignPower?) ==> r.Finished?
    decreases |body|
  {
    if body == [] then Finished(s)
    else match OpStep(board, ceiling, s, body[0])
      case Err(e) => Raised(s, e)
      case Ok(s') => RunBody(board, ceiling, s', body[1..])
  }

  class Backlight {
    const board: BoardType
    /** `_max_brightness`, cached once at construction. */
    const maxBrightness: int
    /** `_fade_duration`, in seconds. */
    var fadeDuration: real
    /** The attribute directory the controller's path names. */
    var sysfs: Directory
    /** Every write the controller has performed, oldest first. */
    ghost var writes: seq<Write>

    ghost predicate Valid()
      reads this
    {
      fadeDuration >= 0.0
    }

    ghost function Snap(): Snapshot
      reads this
    {
      Snapshot(fadeDuration, sysfs, writes)
    }

    /** The fields `__init__` sets once the ceiling is known. */
    constructor Init(dir: Directory, board: BoardType, ceiling: int)
      ensures Valid()
      ensures this.board == board && maxBrightness == ceiling
      ensures fadeDuration == 0.0 && sysfs == dir && writes == []
    {
      this.board := board;
      maxBrightness := ceiling;
      fadeDuration := 0.0;
      sysfs := dir;
      writes := [];
    }

    /**
     * `Backlight(path, board_type)`: the Pi family reads and caches `max_brightness`
     * (failing if it cannot be read), the Tinker boards use 255.
     */
    static method Open(dir: Directory, board: BoardType) returns (r: Result<Backlight>)
      ensures IsPiFamily(board) && ReadAttribute(dir, "max_brightness").Err? ==>
        r == Err(ReadAttribute(dir, "max_brightness").error)
      ensures IsPiFamily(board) && ReadAttribute(dir, "max_brightness").Ok? ==>
        r.Ok? && r.value.maxBrightness == ReadAttribute(dir, "max_brightness").value
      ensures !IsPiFamily(board) ==> r.Ok? && r.value.maxBrightness == 255
      ensures r.Ok? ==> fresh(r.value) && r.value.Valid() && r.value.board == board
      ensures r.Ok? ==> r.value.fadeDuration == 0.0 && r.value.sysfs == dir && r.value.writes == []
    {
      var ceiling := 255;
      if IsPiFamily(board) {
        var m := ReadAttribute(dir, "max_brightness");
        if m.Err? {
          return Err(m.error);
        }
        ceiling := m.value;
      }
      var b := new Backlight.Init(dir, board, ceiling);
      r := Ok(b);
    }

    /** The `brightness` getter. */
    function Brightness(): (r: Result<int>)
      reads this
      ensures r.Ok? ==> 0 <= r.value <= 100
    {
      BrightnessOf(board, maxBrightness, sysfs)
    }

    /** The `power` getter. */
    function Power(): (r: Result<bool>)
      reads this
      ensures r.Ok? <==> ReadAttribute(sysfs, PowerFile(board)).Ok?
    {
      PowerOf(board, sysfs)
    }

    /** `_set_value`. */
    method SetValue(name: string, value: int)
      modifies this`sysfs, this`writes
      ensures sysfs == WriteAttribute(old(sysfs), name, value)
      ensures writes == old(writes) + [(name, value)]
    {
      sysfs := WriteAttribute(sysfs, name, value);
      writes := writes + [(name, value)];
    }

    /** The `fade_duration` setter: a negative duration is refused and the field kept. */
    method SetFadeDuration(duration: real) returns (r: Outcome)
      requires Valid()
      modifies this`fadeDuration
      ensures Valid()
      ensures duration < 0.0 ==> r == Fail(NegativeDuration(duration)) && fadeDuration == old(fadeDuration)
      ensures duration >= 0.0 ==> r == Pass && fadeDuration == duration
    {
      if duration < 0.0 {
        return Fail(NegativeDuration(duration));
      }
      fadeDuration := duration;
      r := Pass;
    }

    /**
     * The `brightness` setter for an integer target. Without a fade it writes the target
     * once; with one it steps the percentage one point at a time from the current reading
     * and writes every step.
     */
    method SetBrightness(value: int) returns (r: Outcome)
      modifies this`sysfs, this`writes
      ensures var planned := BrightnessWrites(board, maxBrightness, fadeDuration, old(sysfs), value);
        match planned
        case Ok(ws) => r == Pass && sysfs == ApplyWrites(old(sysfs), ws) && writes == old(writes) + ws
        case Err(e) => r == Fail(e) && sysfs == old(sysfs) && writes == old(writes)
    {
      if value < 0 || value > 100 {
        return Fail(OutOfRange(value));
      }
      if fadeDuration > 0.0 {
        var reading := Brightness();
        if reading.Err? {
          return Fail(reading.error);
        }
        FadeFrom(reading.value, value);
      } else {
        SetValue(BrightnessFile(board), Denormalize(value, maxBrightness));
      }
      r := Pass;
    }

    /** The fade loop of the `brightness` setter, from the current reading to the target. */
    method FadeFrom(reading: int, value: int)
      requires 0 <= reading <= 100 && 0 <= value <= 100
      modifies this`sysfs, this`writes
      ensures sysfs == ApplyWrites(old(sysfs), FadeWrites(board, maxBrightness, FadePath(reading, value)))
      ensures writes == old(writes) + FadeWrites(board, maxBrightness, FadePath(reading, value))
    {
      var name := BrightnessFile(board);
      var current := reading;
      var step := if current < value then 1 else -1;
      var diff := if current <= value then value - current else current - value;
      ghost var start := current;
      ghost var walked: seq<int> := [];
      while 0 <= current && current != value && current <= 100
        invariant 0 <= current <= 100
        invariant start < value ==> start <= current <= value && step == 1
        invariant start >= value ==> value <= current <= start && step == -1
        invariant FadePath(start, value) == walked + FadePath(current, value)
        invariant sysfs == ApplyWrites(old(sysfs), FadeWrites(board, maxBrightness, walked))
        invariant writes == old(writes) + FadeWrites(board, maxBrightness, walked)
        decreases Dist(current, value)
      {
        // time.sleep(fade_duration / diff) comes after each write; the divisor is never 0.
        assert diff > 0;
        assert step == Step(current, value);
        FadePathAdvance(start, value, walked, current);
        current := current + step;
        FadeWritesSnoc(board, maxBrightness, old(sysfs), walked, current);
        SetValue(name, Denormalize(current, maxBrightness));
        walked := walked + [current];
      }
      assert walked == FadePath(start, value);
    }

    /** The `power` setter. */
    method SetPower(on: bool)
      modifies this`sysfs, this`writes
      ensures sysfs == ApplyWrites(old(sysfs), PowerWrites(board, on))
      ensures writes == old(writes) + PowerWrites(board, on)
    {
      if IsPiFamily(board) {
        SetValue(PowerFile(board), if on then 0 else 1);
      } else {
        SetValue(PowerFile(board), if on then 255 else 0);
      }
    }

    /** One statement of a `with` block. */
    method Perform(op: Op) returns (r: Outcome)
      requires Valid()
      modifies this`fadeDuration, this`sysfs, this`writes
      ensures Valid()
      ensures match OpStep(board, maxBrightness, old(Snap()), op)
        case Ok(s) => r == Pass && Snap() == s
        case Err(e) => r == Fail(e) && Snap() == old(Snap())
    {
      match op
      case AssignBrightness(v) => r := SetBrightness(v);
      case AssignPower(on) => SetPower(on); r := Pass;
      case AssignFadeDuration(d) => r := SetFadeDuration(d);
    }

    /**
     * `with backlight.fade(duration): body`. The duration is installed before the body
     * runs and the previous one put back after it finishes normally. Nothing restores it
     * when a statement of the body raises: the exception leaves the block at once.
     */
    method Fade(duration: real, body: seq<Op>) returns (r: Outcome)
      requires Valid()
      modifies this`fadeDuration, this`sysfs, this`writes
      ensures Valid()
      ensures duration < 0.0 ==> r == Fail(NegativeDuration(duration)) && Snap() == old(Snap())
      ensures duration >= 0.0 ==>
        match RunBody(board, maxBrightness, old(Snap()).(fade := duration), body)
        case Finished(s) => r == Pass && Snap() == s.(fade := old(fadeDuration))
        case Raised(s, e) => r == Fail(e) && Snap() == s
    {
      var saved := fadeDuration;
      r := SetFadeDuration(duration);
      if r.Fail? {
        return;
      }
      ghost var entered := Snap();
      var i := 0;
      while i < |body|
        invariant 0 <= i <= |body|
        invariant Valid()
        invariant RunBody(board, maxBrightness, Snap(), body[i..]) == RunBody(board, maxBrightness, entered, body)
      {
        assert body[i..][0] == body[i] && body[i..][1..] == body[i + 1..];
        var o := Perform(body[i]);
        if o.Fail? {
          return o;
        }
        i := i + 1;
      }
      r := SetFadeDuration(saved);
    }
  }
}
