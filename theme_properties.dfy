/** Properties of the theme-switching functions in ThemeSwitch that relate
    several calls, or a call to a reference definition. */
module ThemeProperties {
  import opened NightModes
  import opened ThemeSwitch

  /** The two early returns of changeTheme: the day/night mode already in
      effect with the current theme equal to the default theme, or the custom
      theme already current. */
  lemma ChangeNoOpCases(s: ThemeState, theme: int, anim: CircleAnimation, cx: int, cy: int)
    requires
      (IsDayNightTheme(theme) && s.nightMode == theme && s.currentTheme == s.defaultTheme) ||
      (!IsDayNightTheme(theme) && s.currentTheme == theme)
    ensures Change(s, theme, anim, cx, cy) == s
  {
  }

  /** A change to the default theme itself settles after at most one
      application. */
  lemma {:induction false} ChangeToDefaultSettles(s: ThemeState, anim: CircleAnimation, cx: int, cy: int)
    requires s.Accepts(s.defaultTheme)
    ensures Change(s, s.defaultTheme, anim, cx, cy) == Outcome(s, s.defaultTheme, anim, cx, cy)
  {
    var d := s.defaultTheme;
    var moved := s.(circleAnimation := anim, centerX := cx, centerY := cy);
    var saved := moved.(snapshotTaken := true, savedTheme := d, showSnapshot := true, currentTheme := d);
    if IsDayNightTheme(d) {
      if saved.nightMode == d {
        assert Change(saved, d, anim, cx, cy) == saved;
      } else {
        var switched := saved.(nightMode := d);
        if d != NoDefaultTheme {
          assert Change(switched, d, anim, cx, cy) == switched;
        }
      }
    }
  }

  /** The recursion between changeTheme and applyTheme ends in the state
      Outcome describes: for a custom theme the theme is recorded and the
      activity recreated; for a day/night theme the night mode is set first
      and the default theme, when there is one, is then applied on top. */
  lemma {:induction false} ChangeSettles(s: ThemeState, theme: int, anim: CircleAnimation, cx: int, cy: int)
    requires s.Accepts(theme)
    ensures Change(s, theme, anim, cx, cy) == Outcome(s, theme, anim, cx, cy)
  {
    var d := s.defaultTheme;
    if theme == d {
      ChangeToDefaultSettles(s, anim, cx, cy);
    } else {
      var moved := s.(circleAnimation := anim, centerX := cx, centerY := cy);
      var saved := moved.(snapshotTaken := true, savedTheme := theme, showSnapshot := true, currentTheme := theme);
      if IsDayNightTheme(theme) {
        if saved.nightMode == theme {
          if saved.Accepts(d) {
            ChangeToDefaultSettles(saved, anim, cx, cy);
          }
        } else {
          var switched := saved.(nightMode := theme);
          if d != NoDefaultTheme && switched.Accepts(d) {
            ChangeToDefaultSettles(switched, anim, cx, cy);
          }
        }
      }
    }
  }

  /** Whatever the request, an accepted change leaves the saved preference
      equal to the current theme, and a request that is already in effect
      changes nothing; so the preference keeps tracking the theme. */
  lemma PreferenceTracksTheme(s: ThemeState, theme: int, anim: CircleAnimation, cx: int, cy: int)
    requires s.savedTheme == s.currentTheme
    ensures Change(s, theme, anim, cx, cy).savedTheme == Change(s, theme, anim, cx, cy).currentTheme
  {
  }

  /** A toggle asks for a night mode other than the current one, so it is
      accepted whenever no animation is running. */
  lemma ToggleAccepted(s: ThemeState)
    requires !s.isAnimating
    ensures s.Accepts(ToggleTarget(s.nightMode))
  {
  }

  /** Without a day/night default theme, two toggles bring the night mode
      back to MODE_NIGHT_YES or MODE_NIGHT_NO, whichever it was. */
  lemma {:induction false} ToggleTwiceRestores(s: ThemeState, a1: CircleAnimation, x1: int, y1: int,
                                               a2: CircleAnimation, x2: int, y2: int)
    requires !s.isAnimating
    requires s.nightMode == ModeNightYes || s.nightMode == ModeNightNo
    requires !IsDayNightTheme(s.defaultTheme) || s.defaultTheme == NoDefaultTheme
    ensures var once := Change(s, ToggleTarget(s.nightMode), a1, x1, y1);
            once.nightMode == ToggleTarget(s.nightMode) &&
            Change(once, ToggleTarget(once.nightMode), a2, x2, y2).nightMode == s.nightMode
  {
    var t1 := ToggleTarget(s.nightMode);
    ChangeSettles(s, t1, a1, x1, y1);
    var once := Change(s, t1, a1, x1, y1);
    var t2 := ToggleTarget(once.nightMode);
    ChangeSettles(once, t2, a2, x2, y2);
  }

  /** Asking again for what an accepted request produced changes nothing,
      unless no default theme is set and the request is a day/night mode
      other than MODE_NIGHT_FOLLOW_SYSTEM (see RepeatWithoutDefaultAlternates). */
  lemma {:induction false} ChangeIdempotent(s: ThemeState, theme: int, anim: CircleAnimation, cx: int, cy: int)
    requires s.defaultTheme != NoDefaultTheme || !IsDayNightTheme(theme) || theme == ModeNightFollowSystem
    ensures var once := Change(s, theme, anim, cx, cy);
            Change(once, theme, anim, cx, cy) == once
  {
    if s.Accepts(theme) {
      ChangeSettles(s, theme, anim, cx, cy);
      var once := Change(s, theme, anim, cx, cy);
      if once.Accepts(theme) {
        ChangeSettles(once, theme, anim, cx, cy);
      }
    }
  }

  /** With no default theme set, the follow-up at the night-mode-already-set
      branch of applyTheme applies the sentinel -1, which is
      MODE_NIGHT_FOLLOW_SYSTEM: a repeated request for the night mode in
      effect switches to following the system, and the next one switches back. */
  lemma {:induction false} RepeatWithoutDefaultAlternates(s: ThemeState, theme: int, anim: CircleAnimation, cx: int, cy: int)
    requires !s.isAnimating && s.defaultTheme == NoDefaultTheme
    requires IsDayNightTheme(theme) && theme != ModeNightFollowSystem
    requires s.nightMode == theme && s.currentTheme != NoDefaultTheme
    ensures var once := Change(s, theme, anim, cx, cy);
            once.nightMode == ModeNightFollowSystem && once.savedTheme == ModeNightFollowSystem &&
            Change(once, theme, anim, cx, cy).nightMode == theme
  {
    ChangeSettles(s, theme, anim, cx, cy);
    var once := Change(s, theme, anim, cx, cy);
    ChangeSettles(once, theme, anim, cx, cy);
  }

  /** A full transition with a reveal animation: the accepted change leaves a
      pending snapshot, the next layout pass draws the reveal in the requested
      direction, and the animator's start and end events bring the state back
      to idle with the new theme, night mode and preference kept. */
  lemma TransitionReturnsToIdle(s: ThemeState, theme: int, anim: CircleAnimation, cx: int, cy: int)
    requires s.Accepts(theme) && anim != None
    ensures var changed := Change(s, theme, anim, cx, cy);
            InitChoice(changed) == (if anim == Inward then DrawInwards else DrawOutwards) &&
            var idle := AnimationEnded(AnimationStarted(AfterInit(changed)));
            !idle.isAnimating && !idle.showSnapshot && idle.circleAnimation == Inward &&
            idle.centerX == 0 && idle.centerY == 0 &&
            idle.currentTheme == changed.currentTheme && idle.nightMode == changed.nightMode &&
            idle.savedTheme == idle.currentTheme
  {
  }

  /** With animation kind None the snapshot is never cleared: initTheme skips
      the animation, no animator event arrives, and every later layout pass
      takes the same branch instead of restoring the kept theme. */
  lemma NoAnimationLeavesSnapshotPending(s: ThemeState, theme: int, cx: int, cy: int)
    requires s.Accepts(theme)
    ensures var changed := Change(s, theme, None, cx, cy);
            changed.showSnapshot && InitChoice(changed) == SkipAnimation &&
            AfterInit(changed) == changed
  {
  }

  /** When no snapshot is pending, initTheme restores a kept day/night
      preference, and otherwise falls back to following the system. */
  lemma InitRestoresKeptNightMode(s: ThemeState)
    requires !s.showSnapshot
    ensures s.shouldKeepTheme && IsDayNightTheme(s.savedTheme) ==> AfterInit(s).nightMode == s.savedTheme
    ensures s.shouldKeepTheme && !IsDayNightTheme(s.savedTheme) ==> AfterInit(s) == s
    ensures !s.shouldKeepTheme ==> AfterInit(s).nightMode == ModeNightFollowSystem
  {
  }
}
