# rpi-backlight controller, modelled in Dafny

This project models the `Backlight` class of the `rpi_backlight` package (version 2.6.0). The class controls the backlight of a touchscreen through a few sysfs attribute files. It supports four board families: the Raspberry Pi official display, Tinker Board, Tinker Board 2 and Microsoft Surface RT.

The model covers:

- **Brightness as a percentage.** A raw value from `0` to the cached ceiling (`max_brightness`) is normalised to `0..100`, and a percentage is denormalised back to a raw value. Both use Python's `round`, which sends a tie to the even neighbour. Both clamp: normalising clamps to `0..100`, denormalising to `0..255`.
- **The brightness setter.** It validates its target. Without a fade it writes the denormalised target once. With a fade it starts from the current reading and moves one percentage point at a time towards the target, writing after every step.
- **Power.** Each family encodes it differently:
  - Pi family (Raspberry Pi and Surface RT): `bl_power` is an inverted switch (0 = on, 1 = off).
  - Tinker boards: there is no switch. Power is "`tinker_mcu_bl` is not 0", and setting it writes 255 or 0.
- **The fade duration.** The setter refuses negative values. The `fade(duration)` context manager installs a duration for one `with` block.

Files:

- `failures.dfy` (module `Failures`): the exceptions that can escape, as values. There is `Result` for getters and `Outcome` for setters.
- `attributes.dfy` (module `Attributes`): the attribute directory. A directory is a map from file name to integer plus a map of symbolic links. Reads and writes both follow a link. This gives the test fixture's `actual_brightness -> brightness` link exactly. The module also defines `FakeSysfs()`, the directory `FakeBacklightSysfs` builds.
- `scaling.dfy` (module `Scaling`): `RoundHalfEven`, `Normalize` and `Denormalize`, and the round-trip and monotonicity facts about them.
- `fading.dfy` (module `Fading`): `FadePath`, the percentages a fade writes.
- `backlight.dfy` (module `RpiBacklight`): the board table; the getters as pure functions; `BrightnessWrites` and `PowerWrites`, the writes each setter performs; and the class `Backlight`. The class has the fields `board`, `maxBrightness`, `fadeDuration` and `sysfs`, plus a ghost log `writes` of every write performed. Its setter methods are proved against those functions. The brightness loop stays a `while` loop (`FadeFrom`).
- `properties.dfy` (module `BacklightProperties`): lemmas about the setters and getters taken together. It also has the test suite's fake-directory session written as a method over the class.

The model does not call anything outside itself. The directory is a field, there is no clock, and nothing is read from the environment.

Behaviour of the code that is easy to misread:

- **Denormalising clamps at 255, not at the ceiling** (`rpi_backlight/__init__.py:113`). With a ceiling above 255, 100% writes 255 (`DenormalizeCapsAt255`).
- **The ceiling is not checked at construction.** A `max_brightness` of 0 is accepted. Every later normalisation, including the brightness getter, then raises `ZeroDivisionError` (`DivisionByZero` here). A negative ceiling is accepted and used as is.
- **`fade` restores the previous duration only when the block finishes normally.** There is no `try`/`finally` (`rpi_backlight/__init__.py:126-129`). When a statement in the block raises, the installed duration stays (`Backlight.Fade`, `BodyKeepsInstalledDuration`).
- **A fade to the current reading writes nothing.** A set without a fade always writes once.
- **Tinker power-on writes the literal 255.** This equals the Tinker ceiling, which is also fixed at 255.

Rounding is Python's round-half-to-even. With the fake directory's ceiling of 255, the test suite's values come out as expected: 50% is stored as 128 and read back as 50.

## Model

| member | source | states |
|---|---|---|
| `Scaling.RoundHalfEven` | rpi_backlight/__init__.py:109-113 | the result is an integer within half a unit of n / d, and on a tie it is the even one (Python's `round`) |
| `Scaling.Normalize` | rpi_backlight/__init__.py:109-110 | normalising raises `ZeroDivisionError` exactly when the ceiling is 0; otherwise the percentage is in 0..100 |
| `Scaling.NormalizeNearest` | rpi_backlight/__init__.py:109-110 | for a raw value within the ceiling the clamp has no effect: the percentage is within half a point of raw / ceiling * 100 |
| `Scaling.Denormalize` | rpi_backlight/__init__.py:112-113 | the raw value is always in 0..255 |
| `Scaling.DenormalizeNearest` | rpi_backlight/__init__.py:112-113 | for a percentage in 0..100 and a ceiling of at most 255 the clamp has no effect: the raw value is within half a unit of percent * ceiling / 100 |
| `Scaling.DenormalizeCapsAt255` | rpi_backlight/__init__.py:113 | with a ceiling of 255 or more, 100% denormalises to 255, because the upper clamp is the literal 255 |
| `Scaling.NormalizeDenormalize` | rpi_backlight/__init__.py:109-113 | for every ceiling from 100 to 255, denormalising a percentage and normalising the result gives the same percentage |
| `Scaling.DenormalizeNormalize` | rpi_backlight/__init__.py:109-113 | for a ceiling from 1 to 255, normalising a raw value and denormalising it again lands within one raw unit of it |
| `Scaling.DenormalizeStrictlyIncreasing` | rpi_backlight/__init__.py:112-113 | for a ceiling from 100 to 255, a larger percentage always gives a larger raw value |
| `Scaling.NormalizeNeverTiesForOddCeiling` | rpi_backlight/__init__.py:110 | with an odd ceiling such as 255 and a raw value within it, the normalised percentage is strictly nearer than half a point to raw / ceiling * 100, by a margin of at least 1 / (2 * ceiling); the tie rule never decides the result |
| `Scaling.ExpectedValuesAt255` | tests/test_internals.py:26-41 | with a ceiling of 255: normalise 255, 128, 0 gives 100, 50, 0; denormalise 100, 50, 0 gives 255, 128, 0 |
| `Attributes.ReadAttribute` | rpi_backlight/__init__.py:89-99 | `_get_value`: the integer in the file the name resolves to; it raises the missing-file error, naming the attribute, exactly when that file does not exist |
| `Attributes.WriteAttribute` | rpi_backlight/__init__.py:101-107 | `_set_value`: afterwards the name reads back the value written; the file is created if need be, no other file appears, and the links stay as they were |
| `Attributes.FakeSysfs` | rpi_backlight/utils.py:41-46 | the test fixture's directory holds exactly `bl_power`, `brightness` and `max_brightness`, and `actual_brightness` resolves to the same file as `brightness` |
| `Attributes.ReadAfterWrite` | rpi_backlight/__init__.py:89-103 | reading a name that resolves to the file just written gives the value written |
| `Attributes.WriteFrame` | rpi_backlight/__init__.py:101-103 | a write changes no other file and no link |
| `Attributes.ApplyWritesToOneName` | rpi_backlight/__init__.py:198-211 | a run of writes to one name has the effect of its last write alone |
| `Fading.FadePath` | rpi_backlight/__init__.py:188-197 | a fade from c to t writes exactly abs(t - c) percentages |
| `Fading.FadePathAt` | rpi_backlight/__init__.py:190-197 | the i-th percentage written is c moved i + 1 points towards t |
| `Fading.FadePathEndsAtTarget` | rpi_backlight/__init__.py:192-197 | a fade that moves at all ends exactly on the target |
| `Fading.FadePathMonotone` | rpi_backlight/__init__.py:190-197 | the percentages move strictly towards the target and stay between the start (excluded) and the target (included): no overshoot |
| `RpiBacklight.BoardType` | rpi_backlight/__init__.py:17-27 | the four board types of the `BoardType` enum; `IsPiFamily` groups the Raspberry Pi with the Surface RT (standard backlight files) and the two Tinker boards apart (`tinker_mcu_bl`) |
| `RpiBacklight.BrightnessOf` | rpi_backlight/__init__.py:170-178 | the getter's reading, when it comes back, is a percentage in 0..100 |
| `RpiBacklight.PowerOf` | rpi_backlight/__init__.py:242-251 | the `power` getter raises exactly when the power file (`bl_power` or `tinker_mcu_bl`) is missing, naming it. Pi family: on exactly when `bl_power` is 0. Tinker: off exactly when `tinker_mcu_bl` is 0 |
| `RpiBacklight.BrightnessWrites` | rpi_backlight/__init__.py:180-227 | the brightness setter's writes all go to the board's brightness file with raw values in 0..255, and without a fade there is exactly one; its error cases, fade steps and read-back are proved in `BrightnessSetterFailures`, `FadeSetWrites` and `SetBrightnessReadBack` |
| `RpiBacklight.PowerWrites` | rpi_backlight/__init__.py:258-267 | the power setter makes one write to the board's power file. Pi family: it holds 0 exactly when switching on. Tinker: it holds a nonzero value exactly when switching on |
| `RpiBacklight.OpStep` | rpi_backlight/__init__.py:126-129 | one assignment in a `with` block raises exactly for a rejected brightness assignment or a negative duration; power assignments never raise. Brightness and power assignments keep the duration, a duration assignment changes only the duration, and the write log only grows |
| `RpiBacklight.RunBody` | rpi_backlight/__init__.py:126-129 | the statements of a block run in order until one raises; the write log only grows, and a block of power assignments always finishes normally |
| `RpiBacklight.Backlight.Brightness` | rpi_backlight/__init__.py:157-178 | the `brightness` property of the object reads from its own directory and ceiling, and is in 0..100 |
| `RpiBacklight.Backlight.Power` | rpi_backlight/__init__.py:229-251 | the `power` property of the object raises exactly when its board's power file is missing; what it reads as is `PowerOf`, and `SetPowerReadBack` proves it reads back as set |
| `RpiBacklight.Backlight.Init` | rpi_backlight/__init__.py:77-79 | a new controller has the given board and ceiling, fade duration 0 and no writes |
| `RpiBacklight.Backlight.Open` | rpi_backlight/__init__.py:81-87 | Pi family: the ceiling is read from `max_brightness`, and a missing file is raised. Tinker boards: the ceiling is 255, with no read. The fade duration starts at 0 |
| `RpiBacklight.Backlight.SetValue` | rpi_backlight/__init__.py:101-103 | one write to the directory, recorded at the end of the write log |
| `RpiBacklight.Backlight.SetFadeDuration` | rpi_backlight/__init__.py:147-155 | a negative duration raises and leaves the field unchanged; any other is stored |
| `RpiBacklight.Backlight.SetBrightness` | rpi_backlight/__init__.py:180-227 | the directory and the write log change by exactly `BrightnessWrites`; when it raises, nothing changes |
| `RpiBacklight.Backlight.FadeFrom` | rpi_backlight/__init__.py:188-214 | the loop performs exactly the writes of `FadePath` from the reading to the target, denormalised, in order (an assertion in the loop body also establishes that the sleep's divisor is never 0) |
| `RpiBacklight.Backlight.SetPower` | rpi_backlight/__init__.py:253-267 | the directory and the write log change by exactly `PowerWrites` |
| `RpiBacklight.Backlight.Perform` | rpi_backlight/__init__.py:115-129 | one statement of a `with` block: it takes effect as `OpStep` says, or raises and changes nothing |
| `RpiBacklight.Backlight.Fade` | rpi_backlight/__init__.py:115-129 | a negative duration raises before the block and changes nothing; otherwise the block runs under the new duration, and the old duration is restored only when the block finishes normally |
| `BacklightProperties.BrightnessSetterFailures` | rpi_backlight/__init__.py:184-189 | the setter raises exactly when the target is outside 0..100 (`ValueError`, with the target), or when fading and the current reading fails |
| `BacklightProperties.ImmediateSetWritesOnce` | rpi_backlight/__init__.py:215-227 | with fade duration 0, an accepted target is one write of its denormalised value: to `brightness` (Pi family) or `tinker_mcu_bl` (Tinker) |
| `BacklightProperties.FadeSetWrites` | rpi_backlight/__init__.py:188-214 | with a fade from reading c: abs(target - c) writes, the i-th the denormalised c moved i + 1 points, the last the denormalised target; none when c is the target |
| `BacklightProperties.FadeRawMonotone` | rpi_backlight/__init__.py:188-214 | for a ceiling from 100 to 255, the raw values a fade writes are strictly increasing when brightening and strictly decreasing when dimming |
| `BacklightProperties.BrightnessSetterFrame` | rpi_backlight/__init__.py:198-227 | the brightness setter changes no file other than the board's brightness file, and no link |
| `BacklightProperties.SetBrightnessReadBack` | rpi_backlight/__init__.py:170-227 | when the getter's file and the setter's file are the same (Tinker, or the link `actual_brightness -> brightness`), a ceiling from 100 to 255 makes every accepted target read back exactly, with or without a fade |
| `BacklightProperties.SetPowerReadBack` | rpi_backlight/__init__.py:242-267 | on every board and directory, power reads back as it was set |
| `BacklightProperties.PiPowerPolarity` | rpi_backlight/__init__.py:242-260 | Pi family: setting on or off stores 0 or 1 in `bl_power`, and power reads as on exactly when `bl_power` is 0 |
| `BacklightProperties.PowerSetterFrame` | rpi_backlight/__init__.py:258-267 | the power setter changes no file other than the board's power file, and no link |
| `BacklightProperties.TinkerPowerIsBrightness` | rpi_backlight/__init__.py:245-265 | Tinker, with its ceiling of 255: power on or off stores 255 or 0 in `tinker_mcu_bl` and reads as brightness 100 or 0, and an immediate brightness assignment leaves power on exactly when the target is not 0 |
| `BacklightProperties.BodyKeepsInstalledDuration` | rpi_backlight/__init__.py:126-129 | a block that does not assign the fade duration ends, normally or by raising, with the installed duration still in place; only the normal end then restores the old one |
| `BacklightProperties.FakeSysfsReadings` | rpi_backlight/utils.py:41-46 | on the test fixture's directory: brightness reads 100, power reads on, and `max_brightness` is 255 |
| `BacklightProperties.FakeSysfsSession` | tests/test_backlight.py:7-110 | the test suite's session replayed on the class, asserting the outcomes the tests expect: the constructor reads the ceiling 255 with duration 0; brightness 100 and power on; setting 50 and 0 reads back; 101 and -1 raise `ValueError`; power off and on read back; a negative duration raises and keeps 0; `fade(0.5)` restores 0.1 |
| `BacklightProperties.FakeSysfsSetHalf` | tests/test_backlight.py:50-55 | on the test fixture's directory, setting 50% without a fade writes 128 to `brightness`, which then reads back as 50 |

## Left out

- Real filesystem access is left out: the path table, the choice between `10-0045` and `rpi_backlight` at import time, and the `:emulator:` path with its temp file and `RuntimeError`. The directory is a field of the controller.
- The `TypeError` checks need no model: the board type, the bool power value, and the number-not-bool check on durations and targets. Dafny's types rule out the inputs they reject. The same goes for the unreachable `RuntimeError("Invalid board type")` branches.
- `_get_value`'s retry when the file content does not parse as an integer is left out. Attribute values here are always integers.
- The translation of `EPERM` into `PermissionError` is left out. Writes always succeed and create a missing file (as `write_text` does). A read of a missing file is the one I/O error modelled.
- `time.sleep(fade_duration / diff)` is left out: wall-clock time and float division. The model only proves that `diff` is never 0 where the sleep divides by it.
- Non-integer brightness targets are left out: brightness targets are `int`. With a fractional target the source's loop only stops at the 0/100 bounds.
- Normalize: the quotient is computed exactly, not as the float `raw / max * 100`. For ceilings where an exact tie is possible, float error could move a value off the tie. With an odd ceiling such as 255 the exact quotient stays at least 1 / (2 * ceiling) away from every halfway point (`NormalizeNeverTiesForOddCeiling`). That margin is far larger than the float error, so there the float result is the exact one.
- Fade durations are `real`. Float NaN and infinities are not modelled.
- The kernel updating `actual_brightness` on real hardware is not modelled. Without a link back to `brightness`, `actual_brightness` keeps its value, so read-back is proved only when the two names resolve to one file.
- Backlight.Fade: only Backlight property assignments can appear as statements of the block (`Op`). Reads have no effect, and other code, including nested `with` blocks, is not modelled.
- `rpi_backlight/cli.py` and `rpi_backlight/gui.py` are left out: argument parsing, the toggle built from the Backlight API, and the GTK slider.
- `detect_board_type` in `rpi_backlight/utils.py` is left out: it reads `/proc/device-tree/model`, and the controller takes the board type as an input.
- The legacy module `rpi_backlight.py` is left out: the `rpi_backlight/` package shadows it.
