/** The AppCompat night-mode constants Themey relies on, and the test that
    tells a day/night theme from a custom theme resource. */
module NightModes {

  const ModeNightFollowSystem: int := -1
  const ModeNightNo: int := 1
  const ModeNightYes: int := 2
  const ModeNightAutoBattery: int := 3

  /** The "no default theme" sentinel. It is the same number as
      ModeNightFollowSystem, and the model keeps that overlap. */
  const NoDefaultTheme: int := -1

  /** A theme is a day/night theme exactly when it is one of the four
      night-mode constants; every other integer is a custom theme. */
  function IsDayNightTheme(theme: int): (r: bool)
    ensures r <==> -1 <= theme <= 3 && theme != 0
  {
    theme == ModeNightYes ||
    theme == ModeNightNo ||
    theme == ModeNightFollowSystem ||
    theme == ModeNightAutoBattery
  }
}
