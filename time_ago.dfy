/**
  The relative-time text of formatTimeAgo (src/pages/Timeline.jsx) and of
  formatDate (src/components/DoubtCard.jsx), which are the same code.

  The argument is `now - date` in milliseconds; parsing the date string and
  reading the clock are outside the model.  `Math.floor(x / k)` for a
  positive constant `k` is Dafny's `/`, which rounds toward negative
  infinity for a positive divisor.
*/
module TimeAgo {
  import opened Decimal

  const MsPerMinute := 60000
  const MsPerHour := 3600000
  const MsPerDay := 86400000

  /**
    The text for an elapsed time of `diffMs` milliseconds, branch by branch
    as the source computes it: "Just now" exactly under a minute, and
    otherwise a count followed by " ago".
  */
  function Format(diffMs: int): (r: string)
    ensures r == "Just now" <==> diffMs < MsPerMinute
    ensures MsPerMinute <= diffMs ==> |r| > 4 && IsDigit(r[0]) && r[|r| - 4..] == " ago"
  {
    var diffMins := diffMs / MsPerMinute;
    var diffHours := diffMs / MsPerHour;
    var diffDays := diffMs / MsPerDay;
    if diffMins < 1 then "Just now"
    else if diffMins < 60 then Show(diffMins) + " min ago"
    else if diffHours < 24 then Show(diffHours) + " hour" + (if diffHours > 1 then "s" else "") + " ago"
    else Show(diffDays) + " day" + (if diffDays > 1 then "s" else "") + " ago"
  }

  /**
    The text by elapsed time: under a minute (including a date in the
    future) is "Just now"; under an hour, the whole minutes; under a day,
    the whole hours; otherwise the whole days.
  */
  lemma FormatBuckets(diffMs: int)
    ensures diffMs < MsPerMinute ==> Format(diffMs) == "Just now"
    ensures MsPerMinute <= diffMs < MsPerHour ==>
              1 <= diffMs / MsPerMinute < 60 && Format(diffMs) == Show(diffMs / MsPerMinute) + " min ago"
    ensures MsPerHour <= diffMs < MsPerDay ==>
              1 <= diffMs / MsPerHour < 24
              && Format(diffMs) == Show(diffMs / MsPerHour) + (if diffMs / MsPerHour == 1 then " hour ago" else " hours ago")
    ensures MsPerDay <= diffMs ==>
              1 <= diffMs / MsPerDay
              && Format(diffMs) == Show(diffMs / MsPerDay) + (if diffMs / MsPerDay == 1 then " day ago" else " days ago")
  {
    if MsPerHour <= diffMs < MsPerDay {
      var h := diffMs / MsPerHour;
      assert diffMs / MsPerMinute >= 60;
      assert Show(h) + " hour" + (if h > 1 then "s" else "") + " ago"
          == Show(h) + (if h == 1 then " hour ago" else " hours ago");
    }
    if MsPerDay <= diffMs {
      var d := diffMs / MsPerDay;
      assert diffMs / MsPerMinute >= 60;
      assert diffMs / MsPerHour >= 24;
      assert Show(d) + " day" + (if d > 1 then "s" else "") + " ago"
          == Show(d) + (if d == 1 then " day ago" else " days ago");
    }
  }

  /**
    "Just now" exactly under one minute, and the singular forms exactly in
    the second hour and the second day: "1 hour ago" from 60 to 119
    minutes, "1 day ago" from 24 to 47 hours.
  */
  lemma FormatSingulars(diffMs: int)
    ensures Format(diffMs) == "Just now" <==> diffMs < MsPerMinute
    ensures Format(diffMs) == "1 hour ago" <==> MsPerHour <= diffMs < 2 * MsPerHour
    ensures Format(diffMs) == "1 day ago" <==> MsPerDay <= diffMs < 2 * MsPerDay
  {
    FormatBuckets(diffMs);
    var text := Format(diffMs);
    assert Show(1) == "1";
    if MsPerMinute <= diffMs {
      assert IsDigit(text[0]);
      ShowInjective(1, diffMs / MsPerMinute);
      ShowInjective(1, diffMs / MsPerHour);
      ShowInjective(1, diffMs / MsPerDay);
    }
    if MsPerMinute <= diffMs < MsPerHour {
      var m := Show(diffMs / MsPerMinute);
      assert text[|m|..] == " min ago";
    }
    if MsPerHour <= diffMs < MsPerDay {
      var h := Show(diffMs / MsPerHour);
      if text == "1 hour ago" {
        assert text[..|h|] == h;
      }
    }
    if MsPerDay <= diffMs {
      var d := Show(diffMs / MsPerDay);
      if text == "1 day ago" || text == "1 hour ago" {
        assert text[..|d|] == d;
      }
    }
  }
}
