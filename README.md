# Themey theme-switching state machine, in Dafny

Themey is a small Android library that switches an app between day/night
modes and custom themes. It plays a circular-reveal animation between a
snapshot of the old screen and the newly themed one. This project models the
`Themey` class (`Themey.kt`) and proves properties of the model:

- **NightModes** (`night_modes.dfy`). The AppCompat night-mode constants
  (`MODE_NIGHT_FOLLOW_SYSTEM = -1`, `MODE_NIGHT_NO = 1`, `MODE_NIGHT_YES = 2`,
  `MODE_NIGHT_AUTO_BATTERY = 3`) and `isDayNightTheme`. The "no default
  theme" sentinel `-1` is the same number as `MODE_NIGHT_FOLLOW_SYSTEM`, as
  in the library.
- **ThemeSwitch** (`theme_switch.dfy`). The class's state as a value
  (`ThemeState`). It has the fields, the saved `THEME` preference, the
  framework's global default night mode, whether the old-theme snapshot was
  captured, and whether the activity was asked to recreate itself. It also
  holds the functions that say what each operation does to that state. The
  core is the mutual recursion between `changeTheme` and `applyTheme`
  (`Change` and `Apply`). Its termination is proved with an explicit measure
  (`ChangeRank` and `ApplyRank`). `Outcome` states, without recursion, where
  that recursion settles.
- **ThemeProperties** (`theme_properties.dfy`). Lemmas that relate several
  calls. They include the proof that the recursion settles in `Outcome`
  (`ChangeSettles`), toggling twice, repeating a request, and a whole
  change, layout and animation cycle.
- **CircleReveal** (`circle_reveal.dfy`). The reveal radius as squared
  integer distances to the four layout corners, and the proof that such a
  radius covers the whole layout.
- **ThemeyModel** (`themey.dfy`). The `Themey` class with the library's
  fields. Each method updates them in the library's order. Each method's
  postcondition equates the new `State()` with the ThemeSwitch function of
  the old one, and keeps `Valid()`: a pending snapshot has been captured.

Notable behaviour the model exhibits (`RepeatWithoutDefaultAlternates`):
suppose no default theme is set (`defaultTheme == -1`) and the night mode
already in effect is requested again. Then `applyTheme` follows up with
`changeTheme(-1)` at `Themey.kt:191-193`. Unlike line 196, that call has no
`!= -1` guard, so the request switches to `MODE_NIGHT_FOLLOW_SYSTEM`, and the
next identical request switches back. `toggleDayNight` never reaches this
path, because it always asks for a mode other than the current one
(`ToggleAccepted`).

## Model

| member | source | states |
|---|---|---|
| `NightModes.IsDayNightTheme` | app/src/main/java/com/jamesstonedeveloper/themey/Themey.kt:303-308 | a theme is a day/night theme exactly when it is one of -1, 1, 2, 3 |
| `ThemeSwitch.ThemeState.IsCurrentDayNightTheme` | app/src/main/java/com/jamesstonedeveloper/themey/Themey.kt:310-312 | holds exactly when setting the night mode to the theme would change nothing |
| `ThemeSwitch.ThemeState.IsCurrentCustomTheme` | app/src/main/java/com/jamesstonedeveloper/themey/Themey.kt:314-316 | holds exactly when recording the theme as current would change nothing |
| `ThemeSwitch.ThemeState.Accepts` | app/src/main/java/com/jamesstonedeveloper/themey/Themey.kt:166-175 | no request is accepted while animating; when idle, a custom theme is accepted exactly when it is not the current theme, and a day/night theme is refused exactly when it is the night mode in effect and the current theme is the default (a day/night theme other than the night mode, or any day/night theme while the current theme is not the default, is accepted) |
| `ThemeSwitch.Initial` | app/src/main/java/com/jamesstonedeveloper/themey/Themey.kt:28-39 | a new instance is idle, shows no snapshot, has captured none, has not recreated, does not keep the theme, has animation kind INWARD, centre (0, 0), no current or default theme (-1), and the stored preference and night mode |
| `ThemeSwitch.Change` | app/src/main/java/com/jamesstonedeveloper/themey/Themey.kt:165-181 | terminates; while animating nothing changes; an accepted change records its animation kind and centre, shows the snapshot once captured, and leaves the preference equal to the current theme; the default theme, keep flag and animating flag never change; the night mode only ever becomes one of the four constants |
| `ThemeSwitch.Apply` | app/src/main/java/com/jamesstonedeveloper/themey/Themey.kt:183-203 | terminates; afterwards the preference equals the current theme, the snapshot is captured and shown, the animation kind and centre are those it was given |
| `ThemeSwitch.ToggleTarget` | app/src/main/java/com/jamesstonedeveloper/themey/Themey.kt:120-122 | a toggle asks for MODE_NIGHT_NO or MODE_NIGHT_YES, never for the night mode in effect, and for MODE_NIGHT_YES from every mode other than MODE_NIGHT_YES |
| `ThemeSwitch.Reset` | app/src/main/java/com/jamesstonedeveloper/themey/Themey.kt:276-281 | clears the snapshot flag, zeroes the centre, sets the kind to INWARD, and changes nothing else |
| `ThemeSwitch.AnimationStarted` | app/src/main/java/com/jamesstonedeveloper/themey/Themey.kt:217-219 | the start event sets the animating flag and changes nothing else |
| `ThemeSwitch.AnimationEnded` | app/src/main/java/com/jamesstonedeveloper/themey/Themey.kt:221-225 | the end event clears the animating and snapshot flags, zeroes the centre, sets the kind to INWARD, and changes nothing else |
| `ThemeSwitch.InitChoice` | app/src/main/java/com/jamesstonedeveloper/themey/Themey.kt:99-106 | a reveal branch (or the early return for NONE) is taken exactly when a snapshot is pending; the early return exactly when the pending kind is NONE; a pending INWARD kind draws inwards and a pending OUTWARD kind draws outwards; the kept theme is restored exactly when no snapshot is pending and the theme is kept |
| `ThemeSwitch.AfterInit` | app/src/main/java/com/jamesstonedeveloper/themey/Themey.kt:98-117 | initTheme changes only the night mode, and only to a day/night constant when no snapshot is pending |
| `ThemeProperties.ChangeNoOpCases` | app/src/main/java/com/jamesstonedeveloper/themey/Themey.kt:166-175 | the two early returns: the day/night mode in effect with the current theme equal to the default, or the custom theme already current |
| `ThemeProperties.ChangeToDefaultSettles` | app/src/main/java/com/jamesstonedeveloper/themey/Themey.kt:190-198 | an accepted change to the default theme itself ends in the closed-form outcome |
| `ThemeProperties.ChangeSettles` | app/src/main/java/com/jamesstonedeveloper/themey/Themey.kt:165-203 | every accepted change ends in the closed-form outcome: a custom theme keeps the night mode, becomes current and recreates; a day/night theme with a custom default ends with that night mode and the default as current theme; a day/night theme that is itself the default ends as both night mode and current theme, and so does one requested with no default set while it is not yet the night mode; in every other day/night case the day/night default (MODE_NIGHT_FOLLOW_SYSTEM when no default is set) ends as both |
| `ThemeProperties.PreferenceTracksTheme` | app/src/main/java/com/jamesstonedeveloper/themey/Themey.kt:185-188 | once the preference equals the current theme, it still does after any change request |
| `ThemeProperties.ToggleAccepted` | app/src/main/java/com/jamesstonedeveloper/themey/Themey.kt:120-145 | a toggle is accepted whenever no animation is running |
| `ThemeProperties.ToggleTwiceRestores` | app/src/main/java/com/jamesstonedeveloper/themey/Themey.kt:120-122 | without a day/night default theme, one toggle sets the requested mode and a second one restores MODE_NIGHT_YES or MODE_NIGHT_NO |
| `ThemeProperties.ChangeIdempotent` | app/src/main/java/com/jamesstonedeveloper/themey/Themey.kt:165-203 | repeating a request changes nothing, except in the no-default day/night case |
| `ThemeProperties.RepeatWithoutDefaultAlternates` | app/src/main/java/com/jamesstonedeveloper/themey/Themey.kt:190-198 | with no default theme, a repeated request for the night mode in effect switches to MODE_NIGHT_FOLLOW_SYSTEM, and the next one switches back |
| `ThemeProperties.TransitionReturnsToIdle` | app/src/main/java/com/jamesstonedeveloper/themey/Themey.kt:98-106 | after an accepted change with an animation, initTheme draws the reveal in the requested direction, and the start and end events return to idle with the new theme, night mode and preference kept |
| `ThemeProperties.NoAnimationLeavesSnapshotPending` | app/src/main/java/com/jamesstonedeveloper/themey/Themey.kt:100-102 | with animation kind NONE the snapshot stays pending and initTheme does nothing |
| `ThemeProperties.InitRestoresKeptNightMode` | app/src/main/java/com/jamesstonedeveloper/themey/Themey.kt:107-116 | with no pending snapshot, initTheme restores a kept day/night preference, leaves a kept custom theme alone, and otherwise follows the system |
| `CircleReveal.Corners` | app/src/main/java/com/jamesstonedeveloper/themey/Themey.kt:285-290 | four points, each pairing an x of 0 or the width with a y of 0 or the height, and every such pair among them |
| `CircleReveal.Abs` | app/src/main/java/com/jamesstonedeveloper/themey/Themey.kt:295-296 | the result is non-negative and is the argument or its negation |
| `CircleReveal.HypotSquared` | app/src/main/java/com/jamesstonedeveloper/themey/Themey.kt:297 | the squared hypotenuse is at least the square of each leg |
| `CircleReveal.RevealCoversLayout` | app/src/main/java/com/jamesstonedeveloper/themey/Themey.kt:283-301 | a radius that reaches all four corners reaches every point of the layout |
| `ThemeyModel.Themey.constructor` | app/src/main/java/com/jamesstonedeveloper/themey/Themey.kt:28-39 | the field initialisers |
| `ThemeyModel.Themey.Init` | app/src/main/java/com/jamesstonedeveloper/themey/Themey.kt:45-54 | sets the keep flag only; the pending snapshot it reads has been captured |
| `ThemeyModel.Themey.DelayedInit` | app/src/main/java/com/jamesstonedeveloper/themey/Themey.kt:56-68 | sets the keep flag and reads the current theme back from the preference |
| `ThemeyModel.Themey.InitTheme` | app/src/main/java/com/jamesstonedeveloper/themey/Themey.kt:98-117 | returns the branch initTheme takes and updates the night mode as AfterInit says |
| `ThemeyModel.Themey.ToggleDayNight` | app/src/main/java/com/jamesstonedeveloper/themey/Themey.kt:120-122 | a change to the toggle target with the stored kind and centre (0, 0) |
| `ThemeyModel.Themey.ToggleDayNightWith` | app/src/main/java/com/jamesstonedeveloper/themey/Themey.kt:124-129 | a change to the toggle target with the given kind and centre (0, 0) |
| `ThemeyModel.Themey.ToggleDayNightWithAt` | app/src/main/java/com/jamesstonedeveloper/themey/Themey.kt:131-137 | a change to the toggle target at the given centre with the stored kind; its kind argument is ignored |
| `ThemeyModel.Themey.ToggleDayNightAt` | app/src/main/java/com/jamesstonedeveloper/themey/Themey.kt:139-145 | a change to the toggle target at the given centre with the stored kind |
| `ThemeyModel.Themey.ChangeTheme` | app/src/main/java/com/jamesstonedeveloper/themey/Themey.kt:147-151 | no-op while animating; otherwise Change with the stored kind and centre (0, 0) |
| `ThemeyModel.Themey.ChangeThemeWith` | app/src/main/java/com/jamesstonedeveloper/themey/Themey.kt:153-157 | no-op while animating; otherwise Change with the given kind and centre (0, 0) |
| `ThemeyModel.Themey.ChangeThemeAt` | app/src/main/java/com/jamesstonedeveloper/themey/Themey.kt:159-163 | no-op while animating; otherwise Change with the stored kind at the given centre |
| `ThemeyModel.Themey.ChangeThemeWithAt` | app/src/main/java/com/jamesstonedeveloper/themey/Themey.kt:165-181 | no-op while animating; the new state is Change of the old one; an accepted change records kind and centre and leaves the preference equal to the current theme |
| `ThemeyModel.Themey.ApplyTheme` | app/src/main/java/com/jamesstonedeveloper/themey/Themey.kt:183-203 | the new state is Apply of the old one |
| `ThemeyModel.Themey.OnAnimationStart` | app/src/main/java/com/jamesstonedeveloper/themey/Themey.kt:217-219 | the new state is AnimationStarted of the old one (the outward animator's callback at lines 248-250 is the same) |
| `ThemeyModel.Themey.OnAnimationEnd` | app/src/main/java/com/jamesstonedeveloper/themey/Themey.kt:221-225 | the new state is AnimationEnded of the old one (the outward animator's callback at lines 252-256 is the same) |
| `ThemeyModel.Themey.ResetVariables` | app/src/main/java/com/jamesstonedeveloper/themey/Themey.kt:276-281 | the new state is Reset of the old one |
| `ThemeyModel.Themey.CircleRadiusSquared` | app/src/main/java/com/jamesstonedeveloper/themey/Themey.kt:283-301 | the result is at least the squared distance from the centre to each of the four corners, and equals one of them |

## Left out

- Bitmap capture and drawing (`createScreenshot`, lines 268-274) are platform rasterisation. The model only records, in `snapshotTaken`, that the old-theme snapshot was captured. The new-theme snapshot of `drawAnimationOutwards` is not modelled.
- Image views, `addView`/`removeView`/`bringToFront`, visibility and elevation (lines 50-51, 61-62, 73-74, 206, 222, 236-237, 253-254, 264-265, 326-336) are view-tree plumbing with no effect on the modelled state.
- Building the circular-reveal animator, its duration and frame timing (lines 208-215, 239-246) belong to the animation framework. Only its start and end callbacks are modelled, as `OnAnimationStart` and `OnAnimationEnd`; the caller invokes them. The repeat and cancel callbacks are empty in the library.
- Layout-change listener registration and removal (lines 80-95, 207, 238) are framework callbacks. `InitTheme` is the method the caller invokes for the first layout pass; `setRootLayout` is not modelled apart from that.
- SharedPreferences I/O, `context.setTheme` and `Activity.recreate` (lines 65-67, 108-109, 185-186, 200) become field updates (`savedTheme`, `currentTheme`, `recreated`). A preference that was never written reads as -1 in both places that read it, so the model stores -1 for it.
- `AppCompatDelegate.get/setDefaultNightMode` becomes the field `nightMode`. Its value before the first write is the framework's, passed to the constructor. Recreating activities on a night-mode change is not modelled.
- ThemeyModel.Themey.CircleRadiusSquared: returns the squared radius as an integer rather than the `Float` from `hypot` (lines 297-298). Square root is monotone, so it picks the same corner; float rounding is not modelled. The differences `coordinates.first - centerX` and `coordinates.second - centerY` and their `abs` (lines 293-296) are 32-bit `Int` in the library and wrap around for extreme centres; the model uses unbounded integers, so it does not capture that overflow.
- `context` and `themeLayout` are `lateinit`: an accepted change before `init` or `setRootLayout` throws at `createScreenshot()` and `getSharedPreferences` (lines 184-185, 270). The model has no uninitialised state, so its `ChangeTheme` methods succeed straight after the constructor; the crash is not modelled.
- `(context as? Activity)?.recreate()` (line 200) does nothing when the context is not an Activity. The model sets `recreated` for every accepted custom theme, as if the context were always an Activity.
- The singleton `companion object` (lines 41-43), the `context` field, and the tuning fields `animationDuration` and `elevation` do not affect the theme state.
