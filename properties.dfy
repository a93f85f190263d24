/** What the controller promises, stated over its pure model. */
module BacklightProperties {
  import opened Failures
  import opened Attributes
  import opened Scaling
  import opened Fading
  import opened RpiBacklight

  /** The brightness setter raises exactly for a target outside 0-100, or a failed reading when it fades. */
  lemma BrightnessSetterFailures(board: BoardType, ceiling: int, fade: real, d: Directory, value: int)
    ensures BrightnessWrites(board, ceiling, fade, d, value).Err? <==>
      value < 0 || value > 100 || (fade > 0.0 && BrightnessOf(board, ceiling, d).Err?)
    ensures value < 0 || value > 100 ==>
      BrightnessWrites(board, ceiling, fade, d, value) == Err(OutOfRange(value))
  {
  }

  /** Without a fade an accepted target is written once, denormalised, to the board's brightness file. */
  lemma ImmediateSetWritesOnce(board: BoardType, ceiling: int, fade: real, d: Directory, value: int)
    requires 0 <= value <= 100 && fade <= 0.0
    ensures BrightnessWrites(board, ceiling, fade, d, value).Ok?
    ensures var ws := BrightnessWrites(board, ceiling, fade, d, value).value;
      |ws| == 1 && ws[0] == (BrightnessFile(board), Denormalize(value, ceiling))
  {
  }

  /**
   * With a fade, the setter writes once per percentage point between the reading c and
   * the target: the i-th write is c moved i + 1 points towards the target, the last is
   * the target itself, and there is no write at all when c is already the target.
   */
  lemma FadeSetWrites(board: BoardType, ceiling: int, fade: real, d: Directory, value: int, c: int)
    requires 0 <= value <= 100 && fade > 0.0 && BrightnessOf(board, ceiling, d) == Ok(c)
    ensures BrightnessWrites(board, ceiling, fade, d, value).Ok?
    ensures var ws := BrightnessWrites(board, ceiling, fade, d, value).value;
      && |ws| == Dist(c, value)
      && (forall i :: 0 <= i < |ws| ==>
            ws[i] == (BrightnessFile(board), Denormalize(c + Step(c, value) * (i + 1), ceiling)))
      && (c == value ==> ws == [])
      && (c != value ==> ws[|ws| - 1] == (BrightnessFile(board), Denormalize(value, ceiling)))
  {
    var ws := BrightnessWrites(board, ceiling, fade, d, value).value;
    forall i | 0 <= i < |ws|
      ensures ws[i] == (BrightnessFile(board), Denormalize(c + Step(c, value) * (i + 1), ceiling))
    {
      FadePathAt(c, value, i);
    }
    if c != value {
      FadePathEndsAtTarget(c, value);
    }
  }

  /**
   * With a ceiling from 100 to 255 the raw values a fade writes are strictly increasing
   * when brightening and strictly decreasing when dimming.
   */
  lemma FadeRawMonotone(board: BoardType, ceiling: int, fade: real, d: Directory, value: int, c: int)
    requires 0 <= value <= 100 && 100 <= ceiling <= 255
    requires fade > 0.0 && BrightnessOf(board, ceiling, d) == Ok(c)
    ensures BrightnessWrites(board, ceiling, fade, d, value).Ok?
    ensures var ws := BrightnessWrites(board, ceiling, fade, d, value).value;
      && (forall i, j :: 0 <= i < j < |ws| && c < value ==> ws[i].1 < ws[j].1)
      && (forall i, j :: 0 <= i < j < |ws| && c > value ==> ws[i].1 > ws[j].1)
  {
    var path := FadePath(c, value);
    var ws := BrightnessWrites(board, ceiling, fade, d, value).value;
    FadePathMonotone(c, value);
    forall i, j | 0 <= i < j < |ws| && c < value ensures ws[i].1 < ws[j].1 {
      DenormalizeStrictlyIncreasing(path[i], path[j], ceiling);
    }
    forall i, j | 0 <= i < j < |ws| && c > value ensures ws[i].1 > ws[j].1 {
      DenormalizeStrictlyIncreasing(path[j], path[i], ceiling);
    }
  }

  /** The setter writes only the board's brightness file: every other file and every link keeps its content. */
  lemma BrightnessSetterFrame(board: BoardType, ceiling: int, fade: real, d: Directory, value: int)
    requires BrightnessWrites(board, ceiling, fade, d, value).Ok?
    ensures var after := ApplyWrites(d, BrightnessWrites(board, ceiling, fade, d, value).value);
      && after.links == d.links
      && forall name :: Resolve(d, name) != Resolve(d, BrightnessFile(board)) ==>
           ReadAttribute(after, name) == ReadAttribute(d, name)
  {
    var ws := BrightnessWrites(board, ceiling, fade, d, value).value;
    if ws != [] {
      assert forall i :: 0 <= i < |ws| ==> ws[i].0 == BrightnessFile(board);
      ApplyWritesToOneName(d, ws, BrightnessFile(board));
    }
  }

  /**
   * When the getter reads the file the setter writes (the Tinker boards' `tinker_mcu_bl`,
   * or `actual_brightness` linked to `brightness`), a ceiling from 100 to 255 makes an
   * accepted assignment read back exactly, with or without a fade.
   */
  lemma SetBrightnessReadBack(board: BoardType, ceiling: int, fade: real, d: Directory, value: int)
    requires 100 <= ceiling <= 255
    requires Resolve(d, BrightnessReadFile(board)) == Resolve(d, BrightnessFile(board))
    requires BrightnessWrites(board, ceiling, fade, d, value).Ok?
    ensures BrightnessOf(board, ceiling, ApplyWrites(d, BrightnessWrites(board, ceiling, fade, d, value).value)) == Ok(value)
  {
    var ws := BrightnessWrites(board, ceiling, fade, d, value).value;
    if ws != [] {
      assert forall i :: 0 <= i < |ws| ==> ws[i].0 == BrightnessFile(board);
      ApplyWritesToOneName(d, ws, BrightnessFile(board));
      if fade > 0.0 {
        FadePathEndsAtTarget(BrightnessOf(board, ceiling, d).value, value);
      }
      assert ws[|ws| - 1].1 == Denormalize(value, ceiling);
      ReadAfterWrite(d, BrightnessFile(board), BrightnessReadFile(board), Denormalize(value, ceiling));
      NormalizeDenormalize(value, ceiling);
    }
  }

  /** Power reads back as set, for every board and every directory. */
  lemma SetPowerReadBack(board: BoardType, d: Directory, on: bool)
    ensures PowerOf(board, ApplyWrites(d, PowerWrites(board, on))) == Ok(on)
  {
    var ws := PowerWrites(board, on);
    assert ApplyWrites(d, ws) == WriteAttribute(d, ws[0].0, ws[0].1);
    ReadAfterWrite(d, ws[0].0, ws[0].0, ws[0].1);
  }

  /** The Pi family's switch is inverted: on is 0 and off is 1 in `bl_power`. */
  lemma PiPowerPolarity(board: BoardType, d: Directory, on: bool, raw: int)
    requires IsPiFamily(board)
    ensures ReadAttribute(ApplyWrites(d, PowerWrites(board, on)), "bl_power") == Ok(if on then 0 else 1)
    ensures ReadAttribute(d, "bl_power") == Ok(raw) ==> PowerOf(board, d) == Ok(raw == 0)
  {
    assert ApplyWrites(d, PowerWrites(board, on)) == WriteAttribute(d, "bl_power", if on then 0 else 1);
  }

  /**
   * A Tinker board has no switch: power on stores the literal 255 in `tinker_mcu_bl` and
   * off stores 0, so against the Tinker ceiling of 255 power on reads as brightness 100 and
   * off as 0; and an immediate brightness assignment powers the display on exactly when
   * the target is not 0.
   */
  lemma TinkerPowerIsBrightness(board: BoardType, d: Directory, on: bool, value: int)
    requires !IsPiFamily(board) && 0 <= value <= 100
    ensures ReadAttribute(ApplyWrites(d, PowerWrites(board, on)), "tinker_mcu_bl") == Ok(if on then 255 else 0)
    ensures BrightnessOf(board, 255, ApplyWrites(d, PowerWrites(board, on))) == Ok(if on then 100 else 0)
    ensures PowerOf(board, ApplyWrites(d, BrightnessWrites(board, 255, 0.0, d, value).value)) == Ok(value != 0)
  {
    var ws := PowerWrites(board, on);
    assert ApplyWrites(d, ws) == WriteAttribute(d, "tinker_mcu_bl", ws[0].1);
    var raw := Denormalize(value, 255);
    assert ApplyWrites(d, BrightnessWrites(board, 255, 0.0, d, value).value)
        == WriteAttribute(d, "tinker_mcu_bl", raw);
    if value != 0 {
      DenormalizeStrictlyIncreasing(0, value, 255);
    }
  }

  /** The power setter writes only the board's power file: every other file and every link keeps its content. */
  lemma PowerSetterFrame(board: BoardType, d: Directory, on: bool)
    ensures var after := ApplyWrites(d, PowerWrites(board, on));
      && after.links == d.links
      && forall name :: Resolve(d, name) != Resolve(d, PowerFile(board)) ==>
           ReadAttribute(after, name) == ReadAttribute(d, name)
  {
    var ws := PowerWrites(board, on);
    ApplyWritesKeepsLinks(d, ws);
    assert ApplyWrites(d, ws) == WriteAttribute(ApplyWrites(d, []), PowerFile(board), ws[0].1);
    forall name | Resolve(d, name) != Resolve(d, PowerFile(board))
      ensures ReadAttribute(ApplyWrites(d, ws), name) == ReadAttribute(d, name)
    {
      WriteFrame(d, PowerFile(board), name, ws[0].1);
    }
  }

  /**
   * A body that does not assign the fade duration runs entirely under the installed one:
   * in particular, when it raises, the duration is left at the override, not restored.
   */
  lemma {:induction false} BodyKeepsInstalledDuration(board: BoardType, ceiling: int, s: Snapshot, body: seq<Op>)
    requires forall i :: 0 <= i < |body| ==> !body[i].AssignFadeDuration?
    ensures RunBody(board, ceiling, s, body).state.fade == s.fade
    decreases |body|
  {
    if body != [] {
      match OpStep(board, ceiling, s, body[0])
      case Err(e) =>
      case Ok(s') =>
        assert s'.fade == s.fade;
        assert forall i :: 0 <= i < |body[1..]| ==> body[1..][i] == body[i + 1];
        BodyKeepsInstalledDuration(board, ceiling, s', body[1..]);
    }
  }

  /** The fake directory the test suite builds, read through a Raspberry Pi controller. */
  lemma FakeSysfsReadings()
    ensures BrightnessOf(RaspberryPi, 255, FakeSysfs()) == Ok(100)
    ensures PowerOf(RaspberryPi, FakeSysfs()) == Ok(true)
    ensures ReadAttribute(FakeSysfs(), "max_brightness") == Ok(255)
  {
    assert Resolve(FakeSysfs(), "actual_brightness") == "brightness";
  }

  /** On the fake directory, setting 50% without a fade stores 128 in `brightness` and reads back 50. */
  lemma FakeSysfsSetHalf()
    ensures BrightnessWrites(RaspberryPi, 255, 0.0, FakeSysfs(), 50) == Ok([("brightness", 128)])
    ensures ReadAttribute(ApplyWrites(FakeSysfs(), [("brightness", 128)]), "brightness") == Ok(128)
    ensures BrightnessOf(RaspberryPi, 255, ApplyWrites(FakeSysfs(), [("brightness", 128)])) == Ok(50)
  {
    ExpectedValuesAt255();
    var after := ApplyWrites(FakeSysfs(), [("brightness", 128)]);
    assert after == WriteAttribute(FakeSysfs(), "brightness", 128);
    assert Resolve(after, "actual_brightness") == "brightness";
  }

  /**
   * The test suite's sessions on the fake directory, replayed as a method over the class:
   * the outcomes it asserts follow from the methods' contracts alone.
   */
  method FakeSysfsSession() {
    FakeSysfsReadings();
    var made := Backlight.Open(FakeSysfs(), RaspberryPi);
    var b := made.value;
    assert b.maxBrightness == 255 && b.fadeDuration == 0.0;
    assert b.Brightness() == Ok(100) && b.Power() == Ok(true);

    var r := b.SetBrightness(50);
    FakeSysfsSetHalf();
    assert r == Pass && b.Brightness() == Ok(50);
    ghost var before := b.sysfs;
    r := b.SetBrightness(0);
    SetBrightnessReadBack(RaspberryPi, 255, 0.0, before, 0);
    assert r == Pass && b.Brightness() == Ok(0);
    r := b.SetBrightness(101);
    assert r == Fail(OutOfRange(101));
    r := b.SetBrightness(-1);
    assert r == Fail(OutOfRange(-1));

    before := b.sysfs;
    b.SetPower(false);
    SetPowerReadBack(RaspberryPi, before, false);
    assert b.Power() == Ok(false);
    before := b.sysfs;
    b.SetPower(true);
    SetPowerReadBack(RaspberryPi, before, true);
    assert b.Power() == Ok(true);

    r := b.SetFadeDuration(-1.0);
    assert r.Fail? && b.fadeDuration == 0.0;
    r := b.SetFadeDuration(0.1);
    r := b.Fade(0.5, []);
    assert r == Pass && b.fadeDuration == 0.1;
  }
}
