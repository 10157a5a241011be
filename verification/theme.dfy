/** The theme manager: the saved preference (a `localStorage` entry), the
    theme applied to the document (the `data-color-scheme` attribute and the
    body class) and the glyph on the toggle button. */
module ThemeManager {
  import opened Wrappers

  datatype Theme = Light | Dark

  /** A sun is shown while the theme is dark, a moon while it is light. */
  datatype Icon = Sun | Moon

  datatype ThemeState = ThemeState(saved: Option<Theme>, scheme: Theme, bodyClass: Theme, icon: Icon)

  function SystemTheme(prefersDark: bool): Theme {
    if prefersDark then Dark else Light
  }

  function IconFor(t: Theme): Icon {
    if t == Dark then Sun else Moon
  }

  function Flip(t: Theme): (r: Theme)
    ensures r != t
  {
    if t == Dark then Light else Dark
  }

  /** The page shows one theme throughout: attribute, body class and glyph
      agree. */
  predicate Consistent(s: ThemeState) {
    s.bodyClass == s.scheme && s.icon == IconFor(s.scheme)
  }

  /** A saved preference is the theme on screen. */
  predicate SavedIsApplied(s: ThemeState) {
    s.saved.None? || s.saved.value == s.scheme
  }

  /** `applyTheme`: sets the attribute and the body class. */
  function ApplyTheme(s: ThemeState, t: Theme): (r: ThemeState)
    ensures r.scheme == t && r.bodyClass == t
    ensures r.saved == s.saved && r.icon == s.icon
  {
    s.(scheme := t, bodyClass := t)
  }

  /** `updateThemeIcon`. */
  function UpdateThemeIcon(s: ThemeState, t: Theme): (r: ThemeState)
    ensures r.icon == IconFor(t)
    ensures r.saved == s.saved && r.scheme == s.scheme && r.bodyClass == s.bodyClass
  {
    s.(icon := IconFor(t))
  }

  /** `initTheme`, run on the page as loaded (`page.saved` is what storage
      holds): the saved preference if there is one, else the system theme. */
  function InitTheme(page: ThemeState, prefersDark: bool): (r: ThemeState)
    ensures r.saved == page.saved
    ensures page.saved.Some? ==> r.scheme == page.saved.value
    ensures page.saved.None? ==> r.scheme == SystemTheme(prefersDark)
    ensures Consistent(r) && SavedIsApplied(r)
  {
    var theme := if page.saved.Some? then page.saved.value else SystemTheme(prefersDark);
    UpdateThemeIcon(ApplyTheme(page, theme), theme)
  }

  /** `toggleTheme`: switches to light exactly when the page is dark, and
      saves the new theme. */
  function ToggleTheme(s: ThemeState): (r: ThemeState)
    ensures r.scheme == Light <==> s.scheme == Dark
    ensures r.saved == Some(r.scheme)
    ensures Consistent(r)
  {
    var newTheme := if s.scheme == Dark then Light else Dark;
    UpdateThemeIcon(ApplyTheme(s, newTheme).(saved := Some(newTheme)), newTheme)
  }

  /** A second toggle undoes the first, once a preference matching the
      screen has been saved. */
  lemma ToggleTwiceRestores(s: ThemeState)
    ensures ToggleTheme(ToggleTheme(s)).scheme == s.scheme
    ensures Consistent(s) && s.saved == Some(s.scheme) ==> ToggleTheme(ToggleTheme(s)) == s
  {
  }

  /** The system colour-scheme listener as written: without a saved
      preference it applies the new system theme, but it leaves the toggle
      glyph alone. */
  function OnSystemChangeAsWritten(s: ThemeState, prefersDark: bool): (r: ThemeState)
    ensures s.saved.Some? ==> r == s
    ensures s.saved.None? ==> r.scheme == SystemTheme(prefersDark) && r.bodyClass == r.scheme
    ensures r.icon == s.icon && r.saved == s.saved
  {
    if s.saved.None? then ApplyTheme(s, SystemTheme(prefersDark)) else s
  }

  /** With no preference saved, a system change to the other theme leaves the
      glyph showing the old one. */
  lemma SystemChangeAsWrittenLeavesStaleIcon(s: ThemeState, prefersDark: bool)
    requires Consistent(s) && s.saved.None?
    requires SystemTheme(prefersDark) != s.scheme
    ensures !Consistent(OnSystemChangeAsWritten(s, prefersDark))
  {
  }

  /** The listener with the glyph kept in step; the rest of the model uses
      this one. A saved preference makes system changes irrelevant. */
  function OnSystemChange(s: ThemeState, prefersDark: bool): (r: ThemeState)
    ensures s.saved.Some? ==> r == s
    ensures s.saved.None? ==> r.scheme == SystemTheme(prefersDark) && r.saved.None?
    ensures Consistent(r) <==> Consistent(s) || s.saved.None?
  {
    if s.saved.None? then
      var t := SystemTheme(prefersDark);
      UpdateThemeIcon(ApplyTheme(s, t), t)
    else s
  }

  datatype ThemeEvent = ToggleClick | SystemSchemeChange(prefersDark: bool)

  /** One event, with the corrected system listener. */
  function Step(s: ThemeState, e: ThemeEvent): (r: ThemeState)
    ensures r.saved.Some? <==> s.saved.Some? || e == ToggleClick
  {
    match e
    case ToggleClick => ToggleTheme(s)
    case SystemSchemeChange(d) => OnSystemChange(s, d)
  }

  /** The theme after a series of user toggles and system changes, with the
      corrected system listener. A preference is saved afterwards exactly
      when one was saved before or the user toggled. */
  function Run(s: ThemeState, events: seq<ThemeEvent>): (r: ThemeState)
    ensures r.saved.Some? <==> s.saved.Some? || ToggleClick in events
    decreases |events|
  {
    if |events| == 0 then s
    else
      assert events == [events[0]] + events[1..];
      Run(Step(s, events[0]), events[1..])
  }

  /** One event, with the system listener as written. */
  function StepAsWritten(s: ThemeState, e: ThemeEvent): (r: ThemeState)
    ensures r.saved.Some? <==> s.saved.Some? || e == ToggleClick
  {
    match e
    case ToggleClick => ToggleTheme(s)
    case SystemSchemeChange(d) => OnSystemChangeAsWritten(s, d)
  }

  /** The theme after a series of events, with the system listener as
      written. */
  function RunAsWritten(s: ThemeState, events: seq<ThemeEvent>): (r: ThemeState)
    ensures r.saved.Some? <==> s.saved.Some? || ToggleClick in events
    decreases |events|
  {
    if |events| == 0 then s
    else
      assert events == [events[0]] + events[1..];
      RunAsWritten(StepAsWritten(s, events[0]), events[1..])
  }

  /** The as-written listener and the corrected one differ only in the
      glyph: saved preference, attribute and body class always agree. */
  lemma RunsAgreeExceptIcon(s: ThemeState, events: seq<ThemeEvent>)
    ensures var a, c := RunAsWritten(s, events), Run(s, events);
      a.saved == c.saved && a.scheme == c.scheme && a.bodyClass == c.bodyClass
  {
    RunsAgreeFrom(s, s, events);
  }

  lemma {:induction false} RunsAgreeFrom(s: ThemeState, t: ThemeState, events: seq<ThemeEvent>)
    requires s.saved == t.saved && s.scheme == t.scheme && s.bodyClass == t.bodyClass
    ensures var a, c := RunAsWritten(s, events), Run(t, events);
      a.saved == c.saved && a.scheme == c.scheme && a.bodyClass == c.bodyClass
    decreases |events|
  {
    if |events| > 0 {
      RunsAgreeFrom(StepAsWritten(s, events[0]), Step(t, events[0]), events[1..]);
    }
  }

  /** As written, a saved preference is always the theme on screen and the
      body class always matches the attribute; only the glyph can go stale. */
  lemma RunAsWrittenKeepsSavedIsApplied(s: ThemeState, events: seq<ThemeEvent>)
    requires Consistent(s) && SavedIsApplied(s)
    ensures SavedIsApplied(RunAsWritten(s, events))
    ensures RunAsWritten(s, events).bodyClass == RunAsWritten(s, events).scheme
  {
    RunKeepsInvariants(s, events);
    RunsAgreeExceptIcon(s, events);
  }

  /** As written, too, a saved preference makes system changes irrelevant:
      the theme is decided by the number of toggles alone. */
  lemma SavedPreferenceIgnoresSystemAsWritten(s: ThemeState, events: seq<ThemeEvent>)
    requires s.saved.Some?
    ensures RunAsWritten(s, events).saved.Some?
    ensures RunAsWritten(s, events).scheme == FlipTimes(s.scheme, Toggles(events))
  {
    SavedPreferenceIgnoresSystem(s, events);
    RunsAgreeExceptIcon(s, events);
  }

  function Toggles(events: seq<ThemeEvent>): nat {
    if |events| == 0 then 0
    else (if events[0] == ToggleClick then 1 else 0) + Toggles(events[1..])
  }

  /** Flips `t` once per toggle. */
  function FlipTimes(t: Theme, n: nat): (r: Theme)
    ensures n % 2 == 0 ==> r == t
    ensures n % 2 == 1 ==> r == Flip(t)
  {
    if n == 0 then t else Flip(FlipTimes(t, n - 1))
  }

  /** Whatever happens, the page keeps showing one theme and any saved
      preference is the theme on screen. */
  lemma {:induction false} RunKeepsInvariants(s: ThemeState, events: seq<ThemeEvent>)
    requires Consistent(s) && SavedIsApplied(s)
    ensures Consistent(Run(s, events)) && SavedIsApplied(Run(s, events))
    decreases |events|
  {
    if |events| > 0 {
      RunKeepsInvariants(Step(s, events[0]), events[1..]);
    }
  }

  /** Once a preference is saved it is never dropped, system changes are
      ignored, and the theme is decided by the number of toggles alone. */
  lemma {:induction false} SavedPreferenceIgnoresSystem(s: ThemeState, events: seq<ThemeEvent>)
    requires s.saved.Some?
    ensures Run(s, events).saved.Some?
    ensures Run(s, events).scheme == FlipTimes(s.scheme, Toggles(events))
    decreases |events|
  {
    if |events| > 0 {
      var s' := Step(s, events[0]);
      SavedPreferenceIgnoresSystem(s', events[1..]);
      if events[0] == ToggleClick {
        assert FlipTimes(Flip(s.scheme), Toggles(events[1..])) == FlipTimes(s.scheme, Toggles(events));
      }
    }
  }

  /** Until the first toggle, the page follows the system: the theme is the
      one of the latest system change, or the starting one if none came. */
  lemma {:induction false} UnsavedFollowsSystem(s: ThemeState, events: seq<ThemeEvent>, prefersDark: bool)
    requires s.saved.None?
    requires Toggles(events) == 0
    ensures Run(s, events).saved.None?
    ensures Run(s, events + [SystemSchemeChange(prefersDark)]).scheme == SystemTheme(prefersDark)
    decreases |events|
  {
    if |events| == 0 {
      assert events + [SystemSchemeChange(prefersDark)] == [SystemSchemeChange(prefersDark)];
    } else {
      assert events[0] != ToggleClick;
      UnsavedFollowsSystem(Step(s, events[0]), events[1..], prefersDark);
      assert (events + [SystemSchemeChange(prefersDark)])[1..] == events[1..] + [SystemSchemeChange(prefersDark)];
    }
  }

  /** With nothing saved and a dark system, one toggle gives the light
      theme and saves it. */
  lemma ToggleFromDarkSystemExample(page: ThemeState)
    requires page.saved.None?
    ensures var r := ToggleTheme(InitTheme(page, true));
      r.scheme == Light && r.saved == Some(Light) && r.icon == Moon
  {
  }
}
