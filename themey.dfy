/** The Themey class: its fields, the saved THEME preference and the
    framework's global default night mode as plain state, and its operations
    as methods proved against the functions of ThemeSwitch. */
module ThemeyModel {
  import opened NightModes
  import opened ThemeSwitch
  import CircleReveal

  class Themey {
    var currentTheme: int
    var shouldKeepTheme: bool
    var centerX: int
    var centerY: int
    var circleAnimation: CircleAnimation
    var showSnapshot: bool
    var isAnimating: bool
    var defaultTheme: int

    /** Whether oldThemeSnapshot (a lateinit bitmap) has been captured. */
    var snapshotTaken: bool
    /** The integer stored under THEME_KEY in the THEME_CHANGE_PREFS preferences. */
    var savedTheme: int
    /** AppCompatDelegate's default night mode, a framework-wide setting. */
    var nightMode: int
    /** Whether the activity was asked to recreate itself. */
    var recreated: bool

    function State(): ThemeState
      reads this
    {
      ThemeState(currentTheme, defaultTheme, shouldKeepTheme, isAnimating, showSnapshot, snapshotTaken,
                 circleAnimation, centerX, centerY, savedTheme, nightMode, recreated)
    }

    ghost predicate Valid()
      reads this
    {
      State().Valid()
    }

    /** A new Themey over the preference an earlier run left behind (-1 when
        there is none, the default both preference reads use) and the
        framework's current night mode. */
    constructor (storedTheme: int, frameworkNightMode: int)
      ensures Valid() && State() == Initial(storedTheme, frameworkNightMode)
    {
      currentTheme := -1;
      shouldKeepTheme := false;
      centerX := 0;
      centerY := 0;
      circleAnimation := Inward;
      showSnapshot := false;
      isAnimating := false;
      defaultTheme := -1;
      snapshotTaken := false;
      savedTheme := storedTheme;
      nightMode := frameworkNightMode;
      recreated := false;
    }

    /** init: records whether the saved theme is kept across launches. A
        pending snapshot is turned into an image view here, which reads the
        lateinit old-theme snapshot; Valid() guarantees it was captured. */
    method Init(keepTheme: bool)
      requires Valid()
      modifies this
      ensures Valid() && State() == old(State()).(shouldKeepTheme := keepTheme)
    {
      shouldKeepTheme := keepTheme;
      if showSnapshot {
        assert snapshotTaken;
      }
    }

    /** delayedInit: as Init, and the current theme is read back from the
        saved preference. */
    method DelayedInit(keepTheme: bool)
      requires Valid()
      modifies this
      ensures Valid() && State() == old(State()).(shouldKeepTheme := keepTheme, currentTheme := old(savedTheme))
    {
      shouldKeepTheme := keepTheme;
      if showSnapshot {
        assert snapshotTaken;
      }
      currentTheme := savedTheme;
    }

    /** initTheme, run on the root layout's first layout change. */
    method InitTheme() returns (action: InitAction)
      requires Valid()
      modifies this
      ensures action == InitChoice(old(State()))
      ensures Valid() && State() == AfterInit(old(State()))
    {
      if showSnapshot {
        match circleAnimation {
          case None => return SkipAnimation;
          case Inward => return DrawInwards;
          case Outward => return DrawOutwards;
        }
      } else if shouldKeepTheme {
        var keptTheme := savedTheme;
        if IsDayNightTheme(keptTheme) {
          nightMode := keptTheme;
        }
        action := RestoreKeptTheme;
      } else {
        nightMode := ModeNightFollowSystem;
        action := FollowSystem;
      }
    }

    /** toggleDayNight(): the stored animation kind, centre (0, 0). */
    method ToggleDayNight()
      requires Valid()
      modifies this
      ensures Valid()
      ensures State() == Change(old(State()), ToggleTarget(old(nightMode)), old(circleAnimation), 0, 0)
    {
      ChangeTheme(ToggleTarget(nightMode));
    }

    /** toggleDayNight(circleAnimation): the given animation kind, centre (0, 0). */
    method ToggleDayNightWith(anim: CircleAnimation)
      requires Valid()
      modifies this
      ensures Valid()
      ensures State() == Change(old(State()), ToggleTarget(old(nightMode)), anim, 0, 0)
    {
      ChangeThemeWith(ToggleTarget(nightMode), anim);
    }

    /** toggleDayNight(circleAnimation, centerX, centerY): the animation kind
        argument is ignored; the stored one is used. */
    method ToggleDayNightWithAt(anim: CircleAnimation, cx: int, cy: int)
      requires Valid()
      modifies this
      ensures Valid()
      ensures State() == Change(old(State()), ToggleTarget(old(nightMode)), old(circleAnimation), cx, cy)
    {
      ChangeThemeAt(ToggleTarget(nightMode), cx, cy);
    }

    /** toggleDayNight(centerX, centerY): the stored animation kind. */
    method ToggleDayNightAt(cx: int, cy: int)
      requires Valid()
      modifies this
      ensures Valid()
      ensures State() == Change(old(State()), ToggleTarget(old(nightMode)), old(circleAnimation), cx, cy)
    {
      ChangeThemeAt(ToggleTarget(nightMode), cx, cy);
    }

    /** changeTheme(theme): the stored animation kind, centre (0, 0). */
    method ChangeTheme(theme: int)
      requires Valid()
      modifies this
      ensures Valid()
      ensures old(isAnimating) ==> State() == old(State())
      ensures State() == Change(old(State()), theme, old(circleAnimation), 0, 0)
    {
      if !isAnimating {
        ChangeThemeWith(theme, circleAnimation);
      }
    }

    /** changeTheme(theme, circleAnimation): centre (0, 0). */
    method ChangeThemeWith(theme: int, anim: CircleAnimation)
      requires Valid()
      modifies this
      ensures Valid()
      ensures old(isAnimating) ==> State() == old(State())
      ensures State() == Change(old(State()), theme, anim, 0, 0)
    {
      if !isAnimating {
        ChangeThemeWithAt(theme, anim, 0, 0);
      }
    }

    /** changeTheme(theme, centerX, centerY): the stored animation kind. */
    method ChangeThemeAt(theme: int, cx: int, cy: int)
      requires Valid()
      modifies this
      ensures Valid()
      ensures old(isAnimating) ==> State() == old(State())
      ensures State() == Change(old(State()), theme, old(circleAnimation), cx, cy)
    {
      if !isAnimating {
        ChangeThemeWithAt(theme, circleAnimation, cx, cy);
      }
    }

    /** changeTheme(theme, circleAnimation, centerX, centerY). */
    method ChangeThemeWithAt(theme: int, anim: CircleAnimation, cx: int, cy: int)
      requires Valid()
      modifies this
      decreases State().ChangeRank(theme)
      ensures Valid()
      ensures old(isAnimating) ==> State() == old(State())
      ensures old(State().Accepts(theme)) ==>
        savedTheme == currentTheme && showSnapshot && circleAnimation == anim && centerX == cx && centerY == cy
      ensures State() == Change(old(State()), theme, anim, cx, cy)
    {
      if !isAnimating {
        if IsDayNightTheme(theme) {
          if State().IsCurrentDayNightTheme(theme) && State().IsCurrentCustomTheme(defaultTheme) {
            return;
          }
        } else {
          if State().IsCurrentCustomTheme(theme) {
            return;
          }
        }
        circleAnimation := anim;
        centerX := cx;
        centerY := cy;
        ApplyTheme(theme);
      }
    }

    /** applyTheme. */
    method ApplyTheme(theme: int)
      requires Valid()
      modifies this
      decreases State().ApplyRank(theme)
      ensures Valid()
      ensures State() == Apply(old(State()), theme)
    {
      snapshotTaken := true;
      savedTheme := theme;
      showSnapshot := true;
      currentTheme := theme;

      if IsDayNightTheme(theme) {
        if nightMode == theme {
          ChangeThemeWithAt(defaultTheme, circleAnimation, centerX, centerY);
          return;
        }
        nightMode := theme;
        if defaultTheme != NoDefaultTheme {
          ChangeThemeWithAt(defaultTheme, circleAnimation, centerX, centerY);
        }
      } else {
        recreated := true;
      }
    }

    /** The start callback of either reveal animator. */
    method OnAnimationStart()
      requires Valid()
      modifies this
      ensures Valid() && State() == AnimationStarted(old(State()))
    {
      isAnimating := true;
    }

    /** The end callback of either reveal animator (the image views it also
        removes are not modelled). */
    method OnAnimationEnd()
      requires Valid()
      modifies this
      ensures Valid() && State() == AnimationEnded(old(State()))
    {
      isAnimating := false;
      ResetVariables();
    }

    /** resetVariables. */
    method ResetVariables()
      modifies this
      ensures Valid() && State() == Reset(old(State()))
    {
      centerY := 0;
      centerX := 0;
      showSnapshot := false;
      circleAnimation := Inward;
    }

    /** getCircleRadius, squared: the largest squared distance from the
        reveal centre to a corner of a width x height layout. */
    method CircleRadiusSquared(width: int, height: int) returns (longest: int)
      ensures CircleReveal.ReachesEveryCorner(longest, width, height, centerX, centerY)
      ensures exists i: nat :: i < 4 && longest == CircleReveal.CornerDistance(width, height, centerX, centerY, i)
    {
      longest := 0;
      ghost var farthest: nat := 0;
      var corners := CircleReveal.Corners(width, height);
      for i := 0 to 4
        invariant farthest < 4 && longest >= 0
        invariant i == 0 ==> longest == 0
        invariant forall j: nat :: j < i ==> CircleReveal.CornerDistance(width, height, centerX, centerY, j) <= longest
        invariant i > 0 ==> longest == CircleReveal.CornerDistance(width, height, centerX, centerY, farthest)
      {
        var xDifference := CircleReveal.Abs(corners[i].0 - centerX);
        var yDifference := CircleReveal.Abs(corners[i].1 - centerY);
        var radius := CircleReveal.HypotSquared(xDifference, yDifference);
        CircleReveal.HypotOfAbs(corners[i].0 - centerX, corners[i].1 - centerY);
        assert radius == CircleReveal.CornerDistance(width, height, centerX, centerY, i) >= 0;
        longest := if radius > longest then radius else longest;
        if longest == radius {
          farthest := i;
        }
      }
    }
  }
}
