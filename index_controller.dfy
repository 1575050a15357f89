/** IndexController's two pure helpers: the human-readable uptime shown on
    the service information page, and the active-profile summary. */
module IndexInfo {
  import opened Common

  /** The parts java.time.Duration reports for a positive uptime: whole days,
      and the hour, minute and second parts below them. */
  datatype UptimeParts = UptimeParts(days: nat, hours: nat, minutes: nat, seconds: nat)

  /** Duration.ofMillis(ms): toDays(), toHoursPart(), toMinutesPart() and
      toSecondsPart(), each derived from the whole seconds of the duration. */
  function Parts(ms: int): (p: UptimeParts)
    requires ms > 0
    ensures p.hours < 24 && p.minutes < 60 && p.seconds < 60
    ensures p.days * 86400 + p.hours * 3600 + p.minutes * 60 + p.seconds == ms / 1000
  {
    var total := ms / 1000;
    var p := UptimeParts(total / 86400, (total / 3600) % 24, (total / 60) % 60, total % 60);
    DecomposeSeconds(total);
    p
  }

  /** Days, hour part, minute part and second part add back up to the seconds. */
  lemma DecomposeSeconds(total: nat)
    ensures (total / 86400) * 86400 + ((total / 3600) % 24) * 3600 + ((total / 60) % 60) * 60 + total % 60 == total
  {
    var m := total / 60;
    var h := m / 60;
    assert total == m * 60 + total % 60;
    assert m == h * 60 + m % 60;
    assert h == (h / 24) * 24 + h % 24;
    assert total / 3600 == h;
    assert total / 86400 == h / 24;
  }

  /** One unit of the formatted uptime: the number, then the unit letter. */
  function Segment(n: nat, unit: char): string {
    NatToString(n) + [unit]
  }

  /** How many of the larger units are left off the front: the text starts
      with the largest non-zero unit, and with seconds when all are zero. */
  function LeadIndex(p: UptimeParts): nat {
    if p.days > 0 then 0 else if p.hours > 0 then 1 else if p.minutes > 0 then 2 else 3
  }

  /** The units of the formatted uptime, from the leading one down to the
      seconds, every smaller unit following the leading one. */
  function Segments(p: UptimeParts): (segs: seq<string>)
    ensures 1 <= |segs| <= 4
    ensures segs[|segs| - 1] == Segment(p.seconds, 's')
  {
    [Segment(p.days, 'd'), Segment(p.hours, 'h'), Segment(p.minutes, 'm'), Segment(p.seconds, 's')][LeadIndex(p)..]
  }

  /** The String.format call chosen by the largest non-zero unit; each `%dX`
      of the format is the segment of that unit. */
  function Render(p: UptimeParts): string {
    if p.days > 0 then
      Segment(p.days, 'd') + " " + Segment(p.hours, 'h') + " " + Segment(p.minutes, 'm') + " " + Segment(p.seconds, 's')
    else if p.hours > 0 then
      Segment(p.hours, 'h') + " " + Segment(p.minutes, 'm') + " " + Segment(p.seconds, 's')
    else if p.minutes > 0 then
      Segment(p.minutes, 'm') + " " + Segment(p.seconds, 's')
    else
      Segment(p.seconds, 's')
  }

  /** formatUptime: "N/A" for a non-positive uptime, otherwise the parts. */
  function FormatUptime(ms: int): (s: string)
    ensures s == "N/A" <==> ms <= 0
  {
    if ms <= 0 then "N/A"
    else
      var p := Parts(ms);
      var s := Render(p);
      assert s[0] == NatToString([p.days, p.hours, p.minutes, p.seconds][LeadIndex(p)])[0];
      s
  }

  /** Each format string is the segments of its units joined by spaces. */
  lemma RenderJoinsSegments(p: UptimeParts)
    ensures Render(p) == Join(' ', Segments(p))
  {
    var d, h, m, s := Segment(p.days, 'd'), Segment(p.hours, 'h'), Segment(p.minutes, 'm'), Segment(p.seconds, 's');
    var segs := Segments(p);
    assert Join(' ', [s]) == s;
    assert Join(' ', [m, s]) == m + [' '] + s by { assert [m, s][1..] == [s]; }
    assert Join(' ', [h, m, s]) == h + [' '] + m + [' '] + s by { assert [h, m, s][1..] == [m, s]; }
    if p.days > 0 {
      assert segs == [d, h, m, s];
      assert Join(' ', segs) == d + [' '] + h + [' '] + m + [' '] + s by { assert segs[1..] == [h, m, s]; }
    } else if p.hours > 0 {
      assert segs == [h, m, s];
    } else if p.minutes > 0 {
      assert segs == [m, s];
    } else {
      assert segs == [s];
    }
  }

  /** The formatted uptime is the leading unit and every smaller one,
      separated by single spaces. */
  lemma FormatUptimeSegments(ms: int)
    requires ms > 0
    ensures FormatUptime(ms) == Join(' ', Segments(Parts(ms)))
    ensures Split(' ', FormatUptime(ms)) == Segments(Parts(ms))
  {
    var segs := Segments(Parts(ms));
    RenderJoinsSegments(Parts(ms));
    forall k, i | 0 <= k < |segs| && 0 <= i < |segs[k]|
      ensures segs[k][i] != ' '
    {
    }
    SplitJoin(' ', segs);
  }

  /** The leading unit of an uptime of a second or more is never zero. */
  lemma LeadingUnitNonZero(ms: int)
    requires ms >= 1000
    ensures var p := Parts(ms);
      [p.days, p.hours, p.minutes, p.seconds][LeadIndex(p)] > 0
  {
  }

  /** Less than a second of uptime shows as zero seconds. */
  lemma SubSecondUptime(ms: int)
    requires 1 <= ms <= 999
    ensures FormatUptime(ms) == "0s"
  {
    assert Parts(ms) == UptimeParts(0, 0, 0, 0);
  }

  /** A unit's number is read back from its text. */
  lemma SegmentInjective(a: nat, b: nat, u: char)
    requires Segment(a, u) == Segment(b, u)
    ensures a == b
  {
    var sa := Segment(a, u);
    assert NatToString(a) == sa[..|sa| - 1] == NatToString(b);
    NatToStringInjective(a, b);
  }

  /** The formatted uptime determines the whole seconds it was made from:
      two uptimes print alike only when they agree to the second. */
  lemma FormatUptimeInjective(ms1: int, ms2: int)
    requires ms1 > 0 && ms2 > 0
    requires FormatUptime(ms1) == FormatUptime(ms2)
    ensures ms1 / 1000 == ms2 / 1000
  {
    FormatUptimeSegments(ms1);
    FormatUptimeSegments(ms2);
    var p, q := Parts(ms1), Parts(ms2);
    var sp, sq := Segments(p), Segments(q);
    assert sp == sq;
    assert LeadIndex(p) == LeadIndex(q);
    var n := |sp|;
    SegmentInjective(p.seconds, q.seconds, 's');
    if n >= 2 {
      assert sp[n - 2] == Segment(p.minutes, 'm') && sq[n - 2] == Segment(q.minutes, 'm');
      SegmentInjective(p.minutes, q.minutes, 'm');
    }
    if n >= 3 {
      assert sp[n - 3] == Segment(p.hours, 'h') && sq[n - 3] == Segment(q.hours, 'h');
      SegmentInjective(p.hours, q.hours, 'h');
    }
    if n == 4 {
      assert sp[0] == Segment(p.days, 'd') && sq[0] == Segment(q.days, 'd');
      SegmentInjective(p.days, q.days, 'd');
    }
    assert p == q;
  }

  /** getActiveProfiles: "default" when no profile is active, otherwise the
      profiles joined with commas. */
  function ActiveProfiles(profiles: seq<string>): (s: string)
    ensures |profiles| == 0 ==> s == "default"
  {
    if |profiles| == 0 then "default" else Join(',', profiles)
  }

  /** When no profile name holds a comma, the summary splits back into the
      active profiles. */
  lemma ActiveProfilesSplit(profiles: seq<string>)
    requires |profiles| > 0
    requires forall k, i :: 0 <= k < |profiles| && 0 <= i < |profiles[k]| ==> profiles[k][i] != ','
    ensures Split(',', ActiveProfiles(profiles)) == profiles
  {
    SplitJoin(',', profiles);
  }
}
