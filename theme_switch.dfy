/** The state Themey keeps, as a value, and the functions that say what each
    of its operations does to that state. The class in ThemeyModel is proved
    against these functions. */
module ThemeSwitch {
  import opened NightModes

  datatype CircleAnimation = None | Inward | Outward

  /** What initTheme decides to do on the first layout pass of a screen. */
  datatype InitAction =
    | SkipAnimation      // a snapshot is pending but the animation kind is None
    | DrawInwards        // shrink the old snapshot away
    | DrawOutwards       // grow a snapshot of the new theme over the old one
    | RestoreKeptTheme   // apply the saved preference, when it is a day/night theme
    | FollowSystem       // set the night mode to MODE_NIGHT_FOLLOW_SYSTEM

  /** Themey's fields, the saved THEME preference (savedTheme), the
      framework's global default night mode (nightMode), whether the old-theme
      snapshot bitmap was captured (snapshotTaken) and whether the activity
      was asked to recreate itself (recreated). */
  datatype ThemeState = ThemeState(
    currentTheme: int,
    defaultTheme: int,
    shouldKeepTheme: bool,
    isAnimating: bool,
    showSnapshot: bool,
    snapshotTaken: bool,
    circleAnimation: CircleAnimation,
    centerX: int,
    centerY: int,
    savedTheme: int,
    nightMode: int,
    recreated: bool)
  {
    /** The old-theme snapshot is only shown once it has been captured. */
    predicate Valid() {
      showSnapshot ==> snapshotTaken
    }

    /** The day/night mode theme is already the framework's night mode:
        setting it again would change nothing. */
    function IsCurrentDayNightTheme(theme: int): (r: bool)
      ensures r <==> this.(nightMode := theme) == this
    {
      nightMode == theme
    }

    /** theme is already the current theme: recording it again would change
        nothing. */
    function IsCurrentCustomTheme(theme: int): (r: bool)
      ensures r <==> this.(currentTheme := theme) == this
    {
      currentTheme == theme
    }

    /** The guard of the four-argument changeTheme: not animating, and the
        request is not already in effect. */
    function Accepts(theme: int): (r: bool)
      ensures r ==> !isAnimating
      ensures r && currentTheme == theme ==>
        IsDayNightTheme(theme) && (nightMode != theme || theme != defaultTheme)
      ensures !isAnimating && IsDayNightTheme(theme) && nightMode != theme ==> r
      ensures !isAnimating && IsDayNightTheme(theme) && currentTheme != defaultTheme ==> r
      ensures !isAnimating && !IsDayNightTheme(theme) && currentTheme != theme ==> r
      ensures IsDayNightTheme(theme) && nightMode == theme && currentTheme == defaultTheme ==> !r
    {
      !isAnimating &&
      if IsDayNightTheme(theme) then
        !(IsCurrentDayNightTheme(theme) && IsCurrentCustomTheme(defaultTheme))
      else
        !IsCurrentCustomTheme(theme)
    }

    /** Termination measure of changeTheme: a change to something other than
        the default theme leads to at most one change to the default theme,
        which leads to at most one more change that is then already settled. */
    function ChangeRank(theme: int): nat {
      if theme != defaultTheme then 5
      else if currentTheme == theme && nightMode == theme then 0
      else 3
    }

    /** Termination measure of applyTheme. */
    function ApplyRank(theme: int): nat {
      if theme != defaultTheme then 4 else 2
    }
  }

  /** A newly created Themey (the field initialisers), over the preference
      persisted by an earlier run and the framework's current night mode. */
  function Initial(savedTheme: int, nightMode: int): (r: ThemeState)
    ensures r.Valid() && !r.isAnimating && !r.showSnapshot
    ensures r.defaultTheme == NoDefaultTheme && r.currentTheme == NoDefaultTheme
    ensures r.savedTheme == savedTheme && r.nightMode == nightMode
    ensures r.circleAnimation == Inward && r.centerX == 0 && r.centerY == 0
    ensures !r.shouldKeepTheme && !r.snapshotTaken && !r.recreated
  {
    ThemeState(
      currentTheme := -1, defaultTheme := -1, shouldKeepTheme := false,
      isAnimating := false, showSnapshot := false, snapshotTaken := false,
      circleAnimation := Inward, centerX := 0, centerY := 0,
      savedTheme := savedTheme, nightMode := nightMode, recreated := false)
  }

  /** changeTheme(theme, circleAnimation, centerX, centerY). */
  function Change(s: ThemeState, theme: int, anim: CircleAnimation, cx: int, cy: int): (r: ThemeState)
    decreases s.ChangeRank(theme)
    ensures s.isAnimating ==> r == s
    ensures r.defaultTheme == s.defaultTheme && r.shouldKeepTheme == s.shouldKeepTheme
    ensures r.isAnimating == s.isAnimating
    ensures s.Valid() ==> r.Valid()
    ensures r.nightMode == s.nightMode || IsDayNightTheme(r.nightMode)
    ensures s.Accepts(theme) ==>
      r.savedTheme == r.currentTheme && r.showSnapshot && r.snapshotTaken &&
      r.circleAnimation == anim && r.centerX == cx && r.centerY == cy
  {
    if !s.Accepts(theme) then s
    else Apply(s.(circleAnimation := anim, centerX := cx, centerY := cy), theme)
  }

  /** applyTheme(theme): capture the snapshot, save the preference, record
      the theme; then either set the night mode and follow up with the default
      theme, or recreate the activity for a custom theme. */
  function Apply(s: ThemeState, theme: int): (r: ThemeState)
    decreases s.ApplyRank(theme)
    ensures r.savedTheme == r.currentTheme && r.showSnapshot && r.snapshotTaken
    ensures r.circleAnimation == s.circleAnimation && r.centerX == s.centerX && r.centerY == s.centerY
    ensures r.defaultTheme == s.defaultTheme && r.shouldKeepTheme == s.shouldKeepTheme
    ensures r.isAnimating == s.isAnimating
    ensures r.nightMode == s.nightMode || IsDayNightTheme(r.nightMode)
  {
    var saved := s.(snapshotTaken := true, savedTheme := theme, showSnapshot := true, currentTheme := theme);
    if IsDayNightTheme(theme) then
      if saved.nightMode == theme then
        Change(saved, saved.defaultTheme, saved.circleAnimation, saved.centerX, saved.centerY)
      else
        var switched := saved.(nightMode := theme);
        if switched.defaultTheme != NoDefaultTheme then
          Change(switched, switched.defaultTheme, switched.circleAnimation, switched.centerX, switched.centerY)
        else
          switched
    else
      saved.(recreated := true)
  }

  /** The night mode, the theme and the recreate request an accepted change
      settles on, stated without recursion. */
  function Outcome(s: ThemeState, theme: int, anim: CircleAnimation, cx: int, cy: int): ThemeState {
    var d := s.defaultTheme;
    var (night, current, recreate) :=
      if !IsDayNightTheme(theme) then (s.nightMode, theme, true)
      else if !IsDayNightTheme(d) then (theme, d, true)
      else if d == theme || (d == NoDefaultTheme && s.nightMode != theme) then (theme, theme, false)
      else (d, d, false);
    s.(snapshotTaken := true, showSnapshot := true,
       circleAnimation := anim, centerX := cx, centerY := cy,
       savedTheme := current, currentTheme := current, nightMode := night,
       recreated := s.recreated || recreate)
  }

  /** The night mode every toggleDayNight overload asks for. */
  function ToggleTarget(nightMode: int): (r: int)
    ensures IsDayNightTheme(r) && r != nightMode
    ensures r == ModeNightNo || r == ModeNightYes
    ensures nightMode != ModeNightYes ==> r == ModeNightYes
  {
    if nightMode == ModeNightYes then ModeNightNo else ModeNightYes
  }

  /** resetVariables. */
  function Reset(s: ThemeState): (r: ThemeState)
    ensures !r.showSnapshot && r.centerX == 0 && r.centerY == 0 && r.circleAnimation == Inward
    ensures r.Valid()
    ensures r.(showSnapshot := s.showSnapshot, centerX := s.centerX, centerY := s.centerY,
               circleAnimation := s.circleAnimation) == s
  {
    s.(centerY := 0, centerX := 0, showSnapshot := false, circleAnimation := Inward)
  }

  /** The animator's start callback (both reveal directions). */
  function AnimationStarted(s: ThemeState): (r: ThemeState)
    ensures r.isAnimating && r.(isAnimating := s.isAnimating) == s
  {
    s.(isAnimating := true)
  }

  /** The animator's end callback (both reveal directions). */
  function AnimationEnded(s: ThemeState): (r: ThemeState)
    ensures !r.isAnimating && !r.showSnapshot && r.centerX == 0 && r.centerY == 0 && r.circleAnimation == Inward
    ensures r.(isAnimating := s.isAnimating, showSnapshot := s.showSnapshot, centerX := s.centerX,
               centerY := s.centerY, circleAnimation := s.circleAnimation) == s
  {
    Reset(s.(isAnimating := false))
  }

  /** The branch initTheme takes. */
  function InitChoice(s: ThemeState): (r: InitAction)
    ensures s.showSnapshot <==> r.SkipAnimation? || r.DrawInwards? || r.DrawOutwards?
    ensures r.SkipAnimation? <==> s.showSnapshot && s.circleAnimation == None
    ensures r.RestoreKeptTheme? <==> !s.showSnapshot && s.shouldKeepTheme
    ensures s.showSnapshot && s.circleAnimation == Inward ==> r == DrawInwards
    ensures s.showSnapshot && s.circleAnimation == Outward ==> r == DrawOutwards
  {
    if s.showSnapshot then
      match s.circleAnimation
      case None => SkipAnimation
      case Inward => DrawInwards
      case Outward => DrawOutwards
    else if s.shouldKeepTheme then RestoreKeptTheme
    else FollowSystem
  }

  /** The state after initTheme: only the night mode can change. */
  function AfterInit(s: ThemeState): (r: ThemeState)
    ensures r.(nightMode := s.nightMode) == s
    ensures r.nightMode != s.nightMode ==> IsDayNightTheme(r.nightMode) && !s.showSnapshot
  {
    match InitChoice(s)
    case RestoreKeptTheme =>
      if IsDayNightTheme(s.savedTheme) then s.(nightMode := s.savedTheme) else s
    case FollowSystem => s.(nightMode := ModeNightFollowSystem)
    case _ => s
  }
}
