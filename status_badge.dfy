/**
 * The status badge: the poller's status as a coloured label, with a pulsing
 * dot while the run is queued or running, and the elapsed time beside it.
 */
module StatusBadge {
  import opened Wrappers
  import opened Text
  import opened Poller

  /** One row of CONFIG: the label (`name`), background and text colours, and the dot's colour if it has one. */
  datatype BadgeStyle = BadgeStyle(name: string, bg: string, color: string, dot: Option<string>)

  /** CONFIG[status]. */
  function Config(status: WorkflowStatus): BadgeStyle {
    match status
    case Idle => BadgeStyle("Idle", "transparent", "var(--text-3)", None)
    case Queued => BadgeStyle("Queued", "var(--warning-bg)", "var(--warning)", Some("#F59E0B"))
    case InProgress => BadgeStyle("Running", "var(--accent-bg)", "var(--accent)", Some("#3B82F6"))
    case Completed => BadgeStyle("Done", "var(--success-bg)", "var(--success)", None)
    case Failed => BadgeStyle("Failed", "var(--danger-bg)", "var(--danger)", None)
    case Timeout => BadgeStyle("Timed out", "var(--warning-bg)", "var(--warning)", None)
    case Error => BadgeStyle("Error", "var(--danger-bg)", "var(--danger)", None)
  }

  /** A status is active while the run is waiting or running. */
  predicate Active(status: WorkflowStatus) {
    status == Queued || status == InProgress
  }

  /** Only the two active statuses have a dot. */
  lemma DotExactlyActive(status: WorkflowStatus)
    ensures Config(status).dot.Some? <==> Active(status)
  {
  }

  /** Each status has its own label: no two statuses read the same. */
  lemma {:induction false} LabelsDistinct(a: WorkflowStatus, b: WorkflowStatus)
    requires a != b
    ensures Config(a).name != Config(b).name
  {
    assert |"Idle"| == 4 && |"Queued"| == 6 && |"Running"| == 7 && |"Done"| == 4;
    assert |"Failed"| == 6 && |"Timed out"| == 9 && |"Error"| == 5;
    assert "Idle"[0] != "Done"[0];
    assert "Queued"[0] != "Failed"[0];
  }

  /**
   * fmt: whole seconds under a minute as "<s>s", otherwise whole minutes and
   * the seconds left over as "<m>m <s>s".
   */
  function Fmt(s: nat): (r: string)
    ensures |r| >= 2 && r[|r| - 1] == 's'
  {
    if s < 60 then ShowNat(s) + "s" else ShowNat(s / 60) + "m " + ShowNat(s % 60) + "s"
  }

  /**
   * What the text says: under a minute, a number of seconds equal to s;
   * otherwise a number of minutes and a number of seconds under 60 that add
   * up to s.
   */
  lemma FmtMeaning(s: nat)
    ensures s < 60 ==> exists d | AllDigits(d) :: Fmt(s) == d + "s" && DecimalValue(d) == s
    ensures s >= 60 ==> exists m, sec | AllDigits(m) && AllDigits(sec) ::
      && Fmt(s) == m + "m " + sec + "s"
      && DecimalValue(sec) < 60
      && 60 * DecimalValue(m) + DecimalValue(sec) == s
  {
    if s < 60 {
      ShowNatValue(s);
      assert Fmt(s) == ShowNat(s) + "s";
    } else {
      ShowNatValue(s / 60);
      ShowNatValue(s % 60);
      assert Fmt(s) == ShowNat(s / 60) + "m " + ShowNat(s % 60) + "s";
    }
  }

  /** Two different durations never show the same text. */
  lemma FmtInjective(a: nat, b: nat)
    requires Fmt(a) == Fmt(b)
    ensures a == b
  {
    if a < 60 && b < 60 {
      DigitsBeforeLetter(ShowNat(a), ShowNat(b), "s", "s");
      ShowNatValue(a);
      ShowNatValue(b);
    } else if a >= 60 && b >= 60 {
      MinutesTextSplits(ShowNat(a / 60), ShowNat(b / 60), ShowNat(a % 60), ShowNat(b % 60));
      ShowNatValue(a / 60);
      ShowNatValue(b / 60);
      ShowNatValue(a % 60);
      ShowNatValue(b % 60);
    } else if a < 60 {
      MinutesShowM(b);
      UnderAMinuteNoM(a);
    } else {
      MinutesShowM(a);
      UnderAMinuteNoM(b);
    }
  }

  /** "<m>m <s>s" determines its two digit strings. */
  lemma MinutesTextSplits(ma: string, mb: string, sa: string, sb: string)
    requires AllDigits(ma) && AllDigits(mb) && AllDigits(sa) && AllDigits(sb)
    requires ma + "m " + sa + "s" == mb + "m " + sb + "s"
    ensures ma == mb && sa == sb
  {
    var ua, ub := "m " + sa + "s", "m " + sb + "s";
    assert ma + "m " + sa + "s" == ma + ua;
    assert mb + "m " + sb + "s" == mb + ub;
    DigitsBeforeLetter(ma, mb, ua, ub);
    assert ua[2..] == sa + "s" && ub[2..] == sb + "s";
    DigitsBeforeLetter(sa, sb, "s", "s");
  }

  /** Digit strings each followed by a text starting with a non-digit split the same way. */
  lemma DigitsBeforeLetter(x: string, y: string, u: string, v: string)
    requires AllDigits(x) && AllDigits(y)
    requires u != [] && v != [] && !IsDigit(u[0]) && !IsDigit(v[0])
    requires x + u == y + v
    ensures x == y && u == v
  {
    DigitRunOf(x, u);
    DigitRunOf(y, v);
    assert x == (x + u)[..|x|] && y == (y + v)[..|y|];
    assert u == (x + u)[|x|..] && v == (y + v)[|y|..];
  }

  /** The length of the run of digits a string starts with. */
  function DigitRun(s: string): (n: nat)
    ensures n <= |s|
  {
    if s == [] || !IsDigit(s[0]) then 0 else 1 + DigitRun(s[1..])
  }

  /** Digits followed by a non-digit: the run is exactly the digits. */
  lemma {:induction false} DigitRunOf(x: string, u: string)
    requires AllDigits(x)
    requires u != [] && !IsDigit(u[0])
    ensures DigitRun(x + u) == |x|
  {
    if x != [] {
      assert (x + u)[1..] == x[1..] + u;
      assert x[0] in x;
      DigitRunOf(x[1..], u);
    }
  }

  /** Under a minute the text has no 'm'. */
  lemma UnderAMinuteNoM(s: nat)
    requires s < 60
    ensures 'm' !in Fmt(s)
  {
    var d := ShowNat(s);
    assert forall i | 0 <= i < |d| :: IsDigit(d[i]);
  }

  /** From a minute on the text has an 'm'. */
  lemma MinutesShowM(s: nat)
    requires s >= 60
    ensures 'm' in Fmt(s)
  {
    assert Fmt(s)[|ShowNat(s / 60)|] == 'm';
  }

  /** The separator written before the elapsed time: the bytes of a middle dot read as Latin-1, then a space. */
  const ELAPSED_SEPARATOR: string := "\U{00C2}\U{00B7} "

  /** What stands before the label: a pulsing dot of the given colour, a check mark, or a clock. */
  datatype Indicator = PulsingDot(color: string) | CheckMark | Clock

  /** A rendered badge: its colours, indicator, label (`name`), and the elapsed-time text if shown. */
  datatype Badge = Badge(bg: string, color: string, indicator: Indicator, name: string, elapsed: Option<string>)

  /**
   * StatusBadge: nothing while idle; otherwise the status's row of CONFIG,
   * pulsing when the row has a dot, and the elapsed time when pulsing and
   * positive.
   */
  function Render(status: WorkflowStatus, elapsedSeconds: int): (b: Option<Badge>)
    ensures b.None? <==> status == Idle
    ensures b.Some? ==> b.value.name == Config(status).name
    ensures b.Some? ==> (b.value.indicator.PulsingDot? <==> Active(status))
    ensures b.Some? ==> (b.value.elapsed.Some? <==> Active(status) && elapsedSeconds > 0)
    ensures b.Some? && b.value.elapsed.Some? ==> b.value.elapsed.value == ELAPSED_SEPARATOR + Fmt(elapsedSeconds)
    ensures b.Some? && b.value.indicator.CheckMark? <==> status == Completed
  {
    if status == Idle then None
    else
      var style := Config(status);
      var pulsing := style.dot.Some?;
      var indicator :=
        if pulsing then PulsingDot(style.dot.value)
        else if status == Completed then CheckMark
        else Clock;
      var elapsed := if pulsing && elapsedSeconds > 0 then Some(ELAPSED_SEPARATOR + Fmt(elapsedSeconds)) else None;
      Some(Badge(style.bg, style.color, indicator, style.name, elapsed))
  }

  /** Different statuses give different badges: the badge tells the status. */
  lemma RenderTellsStatus(a: WorkflowStatus, b: WorkflowStatus, ea: int, eb: int)
    requires a != Idle && Render(a, ea) == Render(b, eb)
    ensures a == b
  {
    if a != b {
      LabelsDistinct(a, b);
    }
  }

  /** While the poller's interval is set, its status is queued or in progress. */
  predicate PollingActive(s: PollerState) {
    s.polling ==> Active(s.status)
  }

  /** Ticks keep a polling poller's status active; starting makes it so. */
  lemma TickPollingActive(s: PollerState, now: int, reply: StatusReply)
    requires PollingActive(s)
    ensures PollingActive(Tick(s, now, reply).state)
  {
  }

  lemma {:induction false} RunPollingActive(s: PollerState, events: seq<TickEvent>)
    requires PollingActive(s)
    ensures PollingActive(Run(s, events))
    decreases |events|
  {
    if events != [] {
      TickPollingActive(s, events[0].now, events[0].reply);
      RunPollingActive(Tick(s, events[0].now, events[0].reply).state, events[1..]);
    }
  }

  /** However the ticks go, the badge of a poller that is still polling pulses. */
  lemma BadgePulsesWhilePolling(s: PollerState, runId: int, now: int, events: seq<TickEvent>)
    requires Run(Started(s, runId, now), events).polling
    ensures var t := Run(Started(s, runId, now), events);
      Render(t.status, t.elapsedSeconds).Some? && Render(t.status, t.elapsedSeconds).value.indicator.PulsingDot?
  {
    RunPollingActive(Started(s, runId, now), events);
  }
}
