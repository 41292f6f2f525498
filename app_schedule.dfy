/*
 * The bot's schedule answers: lessons of the current week, sorted and
 * grouped by weekday, rendered for "today" and for the whole week.
 *
 * Weekdays are Go's numbers (Sunday = 0 … Saturday = 6).  Which weekday a
 * date string falls on (Go's time.Parse over four layouts) is a parameter
 * `dateDay` of the operations that need it; the clock is an input.
 */
module AppSchedule {
  import opened Common

  type Weekday = d: int | 0 <= d <= 6

  const Sunday: Weekday := 0
  const Monday: Weekday := 1

  datatype Lesson = Lesson(
    id: string, subject: string, teacher: string, room: string,
    pairNo: int, time: string, groups: seq<string>,
    weekday: string, date: string)

  /** The weekday of a non-empty date string, when one of the layouts parses it. */
  type DateDay = string -> Option<Weekday>

  // ------------------------------------------------------------- weekdays

  /** weekdayAliases. */
  function Alias(name: string): Option<Weekday> {
    if name == "monday" || name == "понедельник" then Some(1)
    else if name == "tuesday" || name == "вторник" then Some(2)
    else if name == "wednesday" || name == "среда" then Some(3)
    else if name == "thursday" || name == "четверг" then Some(4)
    else if name == "friday" || name == "пятница" then Some(5)
    else if name == "saturday" || name == "суббота" then Some(6)
    else if name == "sunday" || name == "воскресенье" then Some(0)
    else None
  }

  /** weekdayTitles. */
  function Title(d: Weekday): string {
    match d
    case 1 => "Понедельник"
    case 2 => "Вторник"
    case 3 => "Среда"
    case 4 => "Четверг"
    case 5 => "Пятница"
    case 6 => "Суббота"
    case 0 => "Воскресенье"
  }

  /** weekOrder: Monday first, Sunday last. */
  const WeekOrder: seq<Weekday> := [1, 2, 3, 4, 5, 6, 0]

  /** A weekday's place in weekOrder. */
  function MondayIndex(d: Weekday): nat {
    if d == 0 then 6 else d - 1
  }

  /** parseWeekday: the alias of the trimmed, lower-cased name. */
  function ParseWeekday(value: string): Option<Weekday> {
    Alias(Lower(TrimGo(value)))
  }

  /** Surrounding white space makes no difference. */
  lemma ParseWeekdayPadded(pre: string, name: string, post: string)
    requires Blank(pre, GoWs) && Blank(post, GoWs)
    requires name != [] && !GoSpace(name[0]) && !GoSpace(name[|name| - 1])
    ensures ParseWeekday(pre + name + post) == ParseWeekday(name)
  {
    TrimPadded(pre, name, post, GoWs);
    TrimUnchanged(name, GoWs);
  }

  /** detectWeekday: the lesson's weekday name when it parses, else the weekday of its date. */
  function DetectWeekday(l: Lesson, dateDay: DateDay): Option<Weekday> {
    if l.weekday != "" && ParseWeekday(l.weekday).Some? then ParseWeekday(l.weekday)
    else if l.date == "" then None
    else dateDay(l.date)
  }

  // ------------------------------------------------------------ ordering

  /** Go's `<` on strings: byte order of UTF-8, which is code-point order. */
  predicate StringLess(a: string, b: string)
    decreases |a|
  {
    if a == [] then b != []
    else if b == [] then false
    else if a[0] != b[0] then a[0] < b[0]
    else StringLess(a[1..], b[1..])
  }

  lemma {:induction false} StringLessAsymmetric(a: string, b: string)
    ensures StringLess(a, b) ==> !StringLess(b, a)
    decreases |a|
  {
    if a != [] && b != [] && a[0] == b[0] {
      StringLessAsymmetric(a[1..], b[1..]);
    }
  }

  /** The comparison of sortLessons. */
  predicate Less(a: Lesson, b: Lesson) {
    if a.weekday != b.weekday && ParseWeekday(a.weekday).Some? && ParseWeekday(b.weekday).Some?
       && ParseWeekday(a.weekday) != ParseWeekday(b.weekday)
    then ParseWeekday(a.weekday).value < ParseWeekday(b.weekday).value
    else if a.pairNo != b.pairNo then a.pairNo < b.pairNo
    else StringLess(a.subject, b.subject)
  }

  lemma LessAsymmetric(a: Lesson, b: Lesson)
    ensures Less(a, b) ==> !Less(b, a)
  {
    StringLessAsymmetric(a.subject, b.subject);
  }

  /**
   * The comparison is not transitive once some weekday names do not parse:
   * Monday's third pair comes before Tuesday's first, which comes before an
   * undated second pair, which comes before Monday's third.
   */
  lemma LessCycle(a: Lesson, b: Lesson, c: Lesson)
    requires a == Lesson("", "", "", "", 3, "", [], "monday", "")
    requires b == Lesson("", "", "", "", 1, "", [], "tuesday", "")
    requires c == Lesson("", "", "", "", 2, "", [], "", "")
    ensures Less(a, b) && Less(b, c) && Less(c, a)
  {
    PlainParses("monday", 1);
    PlainParses("tuesday", 2);
    EmptyNameUnparsed();
  }

  lemma PlainParses(name: string, d: Weekday)
    requires (name == "monday" && d == 1) || (name == "tuesday" && d == 2)
    ensures ParseWeekday(name) == Some(d)
  {
    TrimUnchanged(name, GoWs);
    LowerNoUpper(name);
  }

  lemma EmptyNameUnparsed()
    ensures ParseWeekday("").None?
  {
    assert TrimGo("") == "";
  }

  lemma LessAsymmetricAll()
    ensures Asymmetric(Less)
  {
    forall a: Lesson, b: Lesson ensures Less(a, b) ==> !Less(b, a) {
      LessAsymmetric(a, b);
    }
  }

  // ------------------------------------------------------ insertion sort

  /** sortLessons, as the insertion sort sort.SliceStable runs. */
  function SortSpec(s: seq<Lesson>): (r: seq<Lesson>)
    ensures multiset(r) == multiset(s) && |r| == |s|
  {
    InsertionSortPermutes(s, Less);
    InsertionSort(s, Less)
  }

  /** Sorting leaves no lesson less than the one before it. */
  lemma SortOrdered(s: seq<Lesson>)
    ensures OrderedBy(SortSpec(s), Less)
  {
    LessAsymmetricAll();
    InsertionSortOrdered(s, Less);
  }

  /** Sorting twice sorts once. */
  lemma SortIdempotent(s: seq<Lesson>)
    ensures SortSpec(SortSpec(s)) == SortSpec(s)
  {
    SortOrdered(s);
    InsertionSortKeepsOrdered(SortSpec(s), Less);
  }

  /** sortLessons on the slice in place: sort.SliceStable with the lesson comparison. */
  method SortLessons(a: array<Lesson>)
    modifies a
    ensures a[..] == SortSpec(old(a[..]))
  {
    InsertionSortInPlace(a, Less);
  }

  /** A copy of the lessons, sorted: the slice sortLessons is given, sorted in place. */
  method SortedCopy(ls: seq<Lesson>) returns (r: seq<Lesson>)
    ensures r == SortSpec(ls)
  {
    var arr := new Lesson[|ls|](k requires 0 <= k < |ls| => ls[k]);
    assert arr[..] == ls;
    SortLessons(arr);
    r := arr[..];
  }

  // ----------------------------------------------------- filter and limit

  function Detector(dateDay: DateDay): Lesson -> Option<Weekday> {
    l => DetectWeekday(l, dateDay)
  }

  function OnDay(day: Weekday, dateDay: DateDay): Lesson -> bool {
    KeyIs(Detector(dateDay), day)
  }

  function NoDay(dateDay: DateDay): Lesson -> bool {
    l => DetectWeekday(l, dateDay).None?
  }

  /** The lessons that fall on the day, in their order. */
  function DayLessons(list: seq<Lesson>, day: Weekday, dateDay: DateDay): seq<Lesson> {
    Filter(list, OnDay(day, dateDay))
  }

  /** The lessons with no weekday, in their order. */
  function Undated(list: seq<Lesson>, dateDay: DateDay): seq<Lesson> {
    Filter(list, NoDay(dateDay))
  }

  /** filterLessonsByDay (its nil result is the empty sequence). */
  method FilterLessonsByDay(list: seq<Lesson>, day: Weekday, dateDay: DateDay) returns (out: seq<Lesson>)
    ensures out == DayLessons(list, day, dateDay)
  {
    out := FilterByKey(list, Detector(dateDay), day);
  }

  /** The lessons of a day are exactly the input lessons detected on that day, in their order. */
  lemma DayLessonsExact(list: seq<Lesson>, day: Weekday, dateDay: DateDay)
    ensures forall l :: l in DayLessons(list, day, dateDay) <==> l in list && DetectWeekday(l, dateDay) == Some(day)
    ensures DayLessons(list, day, dateDay) == [] <==> forall k :: 0 <= k < |list| ==> DetectWeekday(list[k], dateDay) != Some(day)
  {
    if DayLessons(list, day, dateDay) == [] {
      forall k | 0 <= k < |list| ensures DetectWeekday(list[k], dateDay) != Some(day) {
        assert list[k] in list;
      }
    } else {
      assert DayLessons(list, day, dateDay)[0] in DayLessons(list, day, dateDay);
    }
  }

  /** limitLessons (its nil result is the empty sequence). */
  function LimitSpec(list: seq<Lesson>, max: int): seq<Lesson> {
    if max <= 0 || list == [] then []
    else if |SortSpec(list)| > max then SortSpec(list)[..max]
    else SortSpec(list)
  }

  /** limitLessons: a sorted copy, cut to max; the input is a value and stays as it is. */
  method LimitLessons(list: seq<Lesson>, max: int) returns (r: seq<Lesson>)
    ensures r == LimitSpec(list, max)
  {
    if max <= 0 || |list| == 0 {
      return [];
    }
    r := SortedCopy(list);
    if |r| > max {
      r := r[..max];
    }
  }

  /** A prefix of an ordered list is ordered. */
  lemma OrderedPrefix(s: seq<Lesson>, n: nat)
    requires n <= |s| && OrderedBy(s, Less)
    ensures OrderedBy(s[..n], Less)
  {
    forall k | 0 < k < n ensures !Less(s[..n][k], s[..n][k - 1]) {
      assert s[..n][k] == s[k] && s[..n][k - 1] == s[k - 1];
    }
  }

  /**
   * limitLessons keeps the first min(max, |list|) lessons of the sorted
   * list (none when max <= 0): an ordered sub-multiset of the input.
   */
  lemma LimitProps(list: seq<Lesson>, max: int)
    ensures |LimitSpec(list, max)| == if max <= 0 then 0 else if |list| > max then max else |list|
    ensures LimitSpec(list, max) == SortSpec(list)[..|LimitSpec(list, max)|]
    ensures multiset(LimitSpec(list, max)) <= multiset(list)
    ensures OrderedBy(LimitSpec(list, max), Less)
  {
    var r := LimitSpec(list, max);
    var t := SortSpec(list);
    SortOrdered(list);
    OrderedPrefix(t, |r|);
    assert r == t[..|r|];
    assert t == t[..|r|] + t[|r|..];
    assert multiset(t) == multiset(t[..|r|]) + multiset(t[|r|..]);
  }

  // ------------------------------------------------------------ rendering

  /** safeText: the trimmed value, or the fallback when it is blank. */
  function SafeText(value: string, fallback: string): (r: string)
    ensures Blank(value, GoWs) ==> r == fallback
    ensures !Blank(value, GoWs) ==> r == TrimGo(value) && r != []
  {
    TrimEmptyIffBlank(value, GoWs);
    if TrimGo(value) == "" then fallback else TrimGo(value)
  }

  /** The time column: the trimmed time, else the pair number when positive, else a placeholder. */
  function TimeText(l: Lesson): (r: string)
    ensures r != []
    ensures !Blank(l.time, GoWs) ==> r == TrimGo(l.time)
    ensures Blank(l.time, GoWs) && l.pairNo > 0 ==> r == "Пара #" + IntToString(l.pairNo)
    ensures Blank(l.time, GoWs) && l.pairNo <= 0 ==> r == "Время уточняется"
  {
    SafeText(l.time, if l.pairNo > 0 then "Пара #" + IntToString(l.pairNo) else "Время уточняется")
  }

  function Meta(l: Lesson): seq<string> {
    var room := SafeText(l.room, "");
    var teacher := SafeText(l.teacher, "");
    (if room != "" then [room] else [])
    + (if teacher != "" then ["Преподаватель " + teacher] else [])
    + (if |l.groups| > 0 then ["Группы: " + Join(l.groups, ", ")] else [])
  }

  /** formatLessonLine. */
  function FormatLine(index: int, l: Lesson): string {
    IntToString(index) + ") " + TimeText(l) + " - " + SafeText(l.subject, "Предмет уточняется")
    + (if Meta(l) == [] then "" else " (" + Join(Meta(l), "; ") + ")")
  }

  /** formatLessonBlock. */
  function FormatBlock(index: int, l: Lesson): string {
    var room := SafeText(l.room, "");
    var teacher := SafeText(l.teacher, "");
    Join([IntToString(index) + ") " + TimeText(l), "📚 " + SafeText(l.subject, "Предмет уточняется")]
         + (if room != "" then ["🏛 " + room] else [])
         + (if teacher != "" then [teacher] else []), "\n")
  }

  function Item(block: bool): (nat, Lesson) -> string {
    (n: nat, l: Lesson) => if block then FormatBlock(n, l) + "\n\n" else FormatLine(n, l) + "\n"
  }

  /** The numbered lines (or blocks) of a list of lessons, numbered from 1. */
  function Listing(ls: seq<Lesson>, block: bool): string {
    Numbered(ls, Item(block))
  }

  /** The builder loop writing the numbered lessons. */
  method ListingOf(ls: seq<Lesson>, block: bool) returns (r: string)
    ensures r == Listing(ls, block)
  {
    r := NumberedOf(ls, Item(block));
  }

  // ----------------------------------------------------------------- week

  /** A day of the week answer: the weekday and its sorted lessons. */
  datatype Section = Section(day: Weekday, lessons: seq<Lesson>)

  function DaySection(list: seq<Lesson>, dateDay: DateDay, d: Weekday): seq<Section> {
    if DayLessons(list, d, dateDay) == [] then [] else [Section(d, SortSpec(DayLessons(list, d, dateDay)))]
  }

  /** The first n days of weekOrder that have lessons, in that order. */
  function WeekSections(list: seq<Lesson>, dateDay: DateDay, n: nat): seq<Section>
    requires n <= |WeekOrder|
    decreases n
  {
    if n == 0 then [] else WeekSections(list, dateDay, n - 1) + DaySection(list, dateDay, WeekOrder[n - 1])
  }

  function SectionText(sec: Section): string {
    Title(sec.day) + ":\n" + Listing(sec.lessons, false) + "\n"
  }

  function RenderSections(secs: seq<Section>): string
    decreases |secs|
  {
    if secs == [] then "" else RenderSections(secs[..|secs| - 1]) + SectionText(secs[|secs| - 1])
  }

  const UndatedTitle := "Занятия без указания дня:\n"
  const NoWeekLessons := "На этой неделе занятий не найдено. Проверь позже или обнови расписание."

  function UndatedText(list: seq<Lesson>, dateDay: DateDay): string {
    if Undated(list, dateDay) == [] then ""
    else UndatedTitle + Listing(SortSpec(Undated(list, dateDay)), false)
  }

  /** The header: the week's Monday and Sunday as DD.MM. */
  function WeekHeader(weekStart: int): string {
    "Расписание на неделю " + DayMonth(weekStart) + " – " + DayMonth(weekStart + 6) + ":\n\n"
  }

  /** Week's answer for the lessons fetched for the week starting on day weekStart. */
  function WeekText(list: seq<Lesson>, weekStart: int, dateDay: DateDay): string {
    if list == [] then NoWeekLessons
    else TrimGo(WeekHeader(weekStart) + RenderSections(WeekSections(list, dateDay, |WeekOrder|))
                + UndatedText(list, dateDay))
  }

  /** The loop filling `grouped` and `withoutDay`. */
  method GroupLessons(lessons: seq<Lesson>, dateDay: DateDay)
    returns (grouped: map<Weekday, seq<Lesson>>, withoutDay: seq<Lesson>)
    ensures forall d: Weekday :: Bucket(grouped, d) == DayLessons(lessons, d, dateDay)
    ensures withoutDay == Undated(lessons, dateDay)
  {
    grouped := map[];
    withoutDay := [];
    var i := 0;
    while i < |lessons|
      invariant 0 <= i <= |lessons|
      invariant GroupedBy(grouped, lessons[..i], Detector(dateDay))
      invariant withoutDay == Undated(lessons[..i], dateDay)
    {
      var lesson := lessons[i];
      assert lessons[..i + 1] == lessons[..i] + [lesson];
      GroupStep(grouped, lessons[..i], lesson, Detector(dateDay));
      FilterSnoc(lessons[..i], lesson, NoDay(dateDay));
      var day := DetectWeekday(lesson, dateDay);
      if day.Some? {
        grouped := grouped[day.value := Bucket(grouped, day.value) + [lesson]];
      } else {
        withoutDay := withoutDay + [lesson];
      }
      i := i + 1;
    }
    assert lessons[..i] == lessons;
  }

  /** One day more of the week's answer. */
  lemma WeekStep(list: seq<Lesson>, dateDay: DateDay, k: nat)
    requires k < |WeekOrder|
    ensures RenderSections(WeekSections(list, dateDay, k + 1))
         == RenderSections(WeekSections(list, dateDay, k))
            + if DayLessons(list, WeekOrder[k], dateDay) == [] then ""
              else SectionText(Section(WeekOrder[k], SortSpec(DayLessons(list, WeekOrder[k], dateDay))))
  {
    var pre := WeekSections(list, dateDay, k);
    var all := WeekSections(list, dateDay, k + 1);
    if DayLessons(list, WeekOrder[k], dateDay) == [] {
      assert all == pre;
    } else {
      assert all[..|all| - 1] == pre;
    }
  }

  /** One section of the week's answer: the day's title and its sorted lessons, one line each. */
  method WriteSection(day: Weekday, lessons: seq<Lesson>) returns (text: string)
    ensures text == SectionText(Section(day, SortSpec(lessons)))
  {
    var sorted := SortedCopy(lessons);
    var listing := ListingOf(sorted, false);
    text := Title(day) + ":\n" + listing + "\n";
  }

  /**
   * Week: lessons grouped by weekday, the days Monday to Sunday that have
   * lessons, each sorted and numbered, then the lessons without a day.
   */
  method Week(fetched: Result<seq<Lesson>>, now: Instant, dateDay: DateDay) returns (r: Result<string>)
    ensures r == match fetched
                 case Err(e) => Err(e)
                 case Ok(ls) => Ok(WeekText(ls, StartOfWeek(now).day, dateDay))
  {
    if fetched.Err? {
      return Err(fetched.error);
    }
    var lessons := fetched.value;
    var weekStart := StartOfWeek(now).day;
    if |lessons| == 0 {
      return Ok(NoWeekLessons);
    }
    var grouped, withoutDay := GroupLessons(lessons, dateDay);
    var header := WeekHeader(weekStart);
    var days := WriteDays(lessons, dateDay, grouped);
    var undated := "";
    if |withoutDay| > 0 {
      var sorted := SortedCopy(withoutDay);
      var listing := ListingOf(sorted, false);
      undated := UndatedTitle + listing;
    }
    r := Ok(TrimGo(header + days + undated));
  }

  /** Week's loop over weekOrder: the section of every day that has lessons. */
  method WriteDays(lessons: seq<Lesson>, dateDay: DateDay, grouped: map<Weekday, seq<Lesson>>) returns (b: string)
    requires forall d: Weekday :: Bucket(grouped, d) == DayLessons(lessons, d, dateDay)
    ensures b == RenderSections(WeekSections(lessons, dateDay, |WeekOrder|))
  {
    b := "";
    var k := 0;
    while k < |WeekOrder|
      invariant 0 <= k <= |WeekOrder|
      invariant b == RenderSections(WeekSections(lessons, dateDay, k))
    {
      var day := WeekOrder[k];
      var dayLessons := Bucket(grouped, day);
      WeekStep(lessons, dateDay, k);
      if |dayLessons| > 0 {
        var text := WriteSection(day, dayLessons);
        b := b + text;
      }
      k := k + 1;
    }
  }

  /** weekOrder lists each weekday once, at its Monday-first place. */
  lemma WeekOrderIndex()
    ensures forall i :: 0 <= i < |WeekOrder| ==> MondayIndex(WeekOrder[i]) == i
    ensures forall d: Weekday :: WeekOrder[MondayIndex(d)] == d
  {
  }

  /** A section as the week's answer has it: a day with lessons, and those lessons sorted. */
  predicate SectionOf(list: seq<Lesson>, dateDay: DateDay, sec: Section) {
    DayLessons(list, sec.day, dateDay) != [] && sec.lessons == SortSpec(DayLessons(list, sec.day, dateDay))
  }

  /** Every section shows a day with lessons, among the first n days, with all of that day's lessons sorted. */
  lemma {:induction false} WeekSectionsSound(list: seq<Lesson>, dateDay: DateDay, n: nat)
    requires n <= |WeekOrder|
    ensures forall k :: 0 <= k < |WeekSections(list, dateDay, n)| ==>
              SectionOf(list, dateDay, WeekSections(list, dateDay, n)[k])
              && MondayIndex(WeekSections(list, dateDay, n)[k].day) < n
    decreases n
  {
    if n > 0 {
      WeekSectionsSound(list, dateDay, n - 1);
      WeekOrderIndex();
      var pre := WeekSections(list, dateDay, n - 1);
      var all := WeekSections(list, dateDay, n);
      forall k | 0 <= k < |all|
        ensures SectionOf(list, dateDay, all[k]) && MondayIndex(all[k].day) < n
      {
        if k < |pre| {
          assert all[k] == pre[k];
        }
      }
    }
  }

  /** The sections follow weekOrder: Monday first, Sunday last, no day twice. */
  lemma {:induction false} WeekSectionsOrdered(list: seq<Lesson>, dateDay: DateDay, n: nat)
    requires n <= |WeekOrder|
    ensures forall k, m :: 0 <= k < m < |WeekSections(list, dateDay, n)| ==>
              MondayIndex(WeekSections(list, dateDay, n)[k].day) < MondayIndex(WeekSections(list, dateDay, n)[m].day)
    decreases n
  {
    if n > 0 {
      WeekSectionsOrdered(list, dateDay, n - 1);
      WeekSectionsSound(list, dateDay, n - 1);
      WeekOrderIndex();
      var pre := WeekSections(list, dateDay, n - 1);
      var all := WeekSections(list, dateDay, n);
      forall k, m | 0 <= k < m < |all|
        ensures MondayIndex(all[k].day) < MondayIndex(all[m].day)
      {
        assert all[k] == pre[k];
        if m < |pre| {
          assert all[m] == pre[m];
        } else {
          assert all[m].day == WeekOrder[n - 1];
        }
      }
    }
  }

  /** Every one of the first n days that has lessons has its section. */
  lemma {:induction false} WeekSectionsComplete(list: seq<Lesson>, dateDay: DateDay, n: nat, d: Weekday)
    requires n <= |WeekOrder| && MondayIndex(d) < n && DayLessons(list, d, dateDay) != []
    ensures exists k :: 0 <= k < |WeekSections(list, dateDay, n)| && WeekSections(list, dateDay, n)[k].day == d
    decreases n
  {
    WeekOrderIndex();
    var pre := WeekSections(list, dateDay, n - 1);
    var all := WeekSections(list, dateDay, n);
    if MondayIndex(d) < n - 1 {
      WeekSectionsComplete(list, dateDay, n - 1, d);
      var k :| 0 <= k < |pre| && pre[k].day == d;
      assert all[k] == pre[k];
    } else {
      assert WeekOrder[n - 1] == d;
      assert all[|pre|].day == d;
    }
  }

  /** Every fetched lesson is in its day's section, or among the lessons without a day. */
  lemma WeekCovers(list: seq<Lesson>, dateDay: DateDay, l: Lesson)
    requires l in list
    ensures DetectWeekday(l, dateDay).Some? ==>
              exists k :: 0 <= k < |WeekSections(list, dateDay, |WeekOrder|)|
                          && WeekSections(list, dateDay, |WeekOrder|)[k].day == DetectWeekday(l, dateDay).value
                          && l in WeekSections(list, dateDay, |WeekOrder|)[k].lessons
    ensures DetectWeekday(l, dateDay).None? ==> l in SortSpec(Undated(list, dateDay))
  {
    var secs := WeekSections(list, dateDay, |WeekOrder|);
    match DetectWeekday(l, dateDay)
    case Some(d) =>
      assert l in DayLessons(list, d, dateDay);
      WeekSectionsComplete(list, dateDay, |WeekOrder|, d);
      WeekSectionsSound(list, dateDay, |WeekOrder|);
      var k :| 0 <= k < |secs| && secs[k].day == d;
      assert SectionOf(list, dateDay, secs[k]);
      assert multiset(SortSpec(DayLessons(list, d, dateDay)))[l] > 0;
    case None =>
      assert l in Undated(list, dateDay);
      assert multiset(SortSpec(Undated(list, dateDay)))[l] > 0;
  }

  // ------------------------------------------------------------- the clock

  /** A local time: the calendar day counted from 1970-01-01, and the second of that day. */
  datatype Instant = Instant(day: int, second: nat)

  /** Go's weekday of a day number; 1970-01-01 was a Thursday. */
  function WeekdayOf(day: int): Weekday {
    (day + 4) % 7
  }

  /** startOfWeek: midnight of the Monday of the same week; a Sunday goes back six days. */
  function StartOfWeek(t: Instant): Instant {
    var diff := WeekdayOf(t.day) - Monday;
    Instant(t.day - (if diff < 0 then 6 else diff), 0)
  }

  /** The start of the week is a Monday midnight, at most six days back, and the latest such Monday. */
  lemma StartOfWeekSpec(t: Instant)
    ensures WeekdayOf(StartOfWeek(t).day) == Monday && StartOfWeek(t).second == 0
    ensures t.day - 6 <= StartOfWeek(t).day <= t.day
    ensures forall d :: StartOfWeek(t).day < d <= t.day ==> WeekdayOf(d) != Monday
    ensures WeekdayOf(t.day) == Sunday ==> StartOfWeek(t).day == t.day - 6
  {
    var r := StartOfWeek(t).day;
    forall d | r < d <= t.day ensures WeekdayOf(d) != Monday {
      ShiftedWeekday(r, d - r);
    }
  }

  lemma ShiftedWeekday(day: int, k: int)
    requires WeekdayOf(day) == Monday && 0 < k < 7
    ensures WeekdayOf(day + k) == k + 1 || (k == 6 && WeekdayOf(day + k) == Sunday)
  {
  }

  /** Every day of a week has the same start of week. */
  lemma SameWeek(t: Instant, u: Instant)
    requires StartOfWeek(t).day <= u.day < StartOfWeek(t).day + 7
    ensures StartOfWeek(u) == StartOfWeek(t)
  {
    var r := StartOfWeek(t).day;
    StartOfWeekSpec(t);
    ShiftedWeekday(r, 1);
    assert WeekdayOf(u.day) == (if u.day == r + 6 then 0 else u.day - r + 1) by {
      if u.day > r { ShiftedWeekday(r, u.day - r); }
    }
  }

  /** The proleptic Gregorian date (year, month, day) of a day number. */
  function CivilFromDays(days: int): (int, int, int) {
    var z := days + 719468;
    var era := z / 146097;
    var doe := z - era * 146097;
    var yoe := (doe - doe / 1460 + doe / 36524 - doe / 146096) / 365;
    var doy := doe - (365 * yoe + yoe / 4 - yoe / 100);
    var mp := (5 * doy + 2) / 153;
    var d := doy - (153 * mp + 2) / 5 + 1;
    var m := if mp < 10 then mp + 3 else mp - 9;
    (yoe + era * 400 + (if m <= 2 then 1 else 0), m, d)
  }

  function TwoDigits(n: int): string {
    PadStart(IntToString(n), 2, '0')
  }

  /** Go's time format "02.01": two-digit day, a dot, two-digit month. */
  function DayMonth(days: int): string {
    TwoDigits(CivilFromDays(days).2) + "." + TwoDigits(CivilFromDays(days).1)
  }

  // ---------------------------------------------------------------- today

  const TodayHeader := "📅 Ваше расписание на сегодня:\n\n"
  const TodayFooter := "Хорошего дня! 🎉✨"
  const NoTodayLessons := "Сегодня занятий нет. Загляни позже, возможно расписание обновится!"

  /** The lessons Today shows: today's, or the first four of the week when today has none. */
  function TodayLessons(list: seq<Lesson>, today: Weekday, dateDay: DateDay): seq<Lesson> {
    if DayLessons(list, today, dateDay) == [] && list != [] then LimitSpec(list, 4)
    else DayLessons(list, today, dateDay)
  }

  function TodayText(list: seq<Lesson>, today: Weekday, dateDay: DateDay): string {
    if TodayLessons(list, today, dateDay) == [] then NoTodayLessons
    else TrimGo(TodayHeader + Listing(SortSpec(TodayLessons(list, today, dateDay)), true) + TodayFooter)
  }

  /** Today. */
  method Today(fetched: Result<seq<Lesson>>, now: Instant, dateDay: DateDay) returns (r: Result<string>)
    ensures r == match fetched
                 case Err(e) => Err(e)
                 case Ok(ls) => Ok(TodayText(ls, WeekdayOf(now.day), dateDay))
  {
    if fetched.Err? {
      return Err(fetched.error);
    }
    var lessons := fetched.value;
    var today := WeekdayOf(now.day);
    var todayLessons := FilterLessonsByDay(lessons, today, dateDay);
    if |todayLessons| == 0 && |lessons| > 0 {
      todayLessons := LimitLessons(lessons, 4);
    }
    if |todayLessons| == 0 {
      return Ok(NoTodayLessons);
    }
    var sorted := SortedCopy(todayLessons);
    var listing := ListingOf(sorted, true);
    r := Ok(TrimGo(TodayHeader + listing + TodayFooter));
  }

  /** Today says there are no lessons exactly when the week has none. */
  lemma TodayEmptyIff(list: seq<Lesson>, today: Weekday, dateDay: DateDay)
    ensures TodayLessons(list, today, dateDay) == [] <==> list == []
  {
    LimitProps(list, 4);
  }

  /**
   * When no lesson falls on today, Today shows the first four lessons of the
   * sorted week, and sorting them again changes nothing.
   */
  lemma TodayFallback(list: seq<Lesson>, today: Weekday, dateDay: DateDay)
    requires DayLessons(list, today, dateDay) == [] && list != []
    ensures TodayLessons(list, today, dateDay)
         == SortSpec(list)[..if |list| > 4 then 4 else |list|]
    ensures SortSpec(TodayLessons(list, today, dateDay)) == TodayLessons(list, today, dateDay)
  {
    LimitProps(list, 4);
    InsertionSortKeepsOrdered(LimitSpec(list, 4), Less);
  }

  /** Otherwise Today shows exactly today's lessons. */
  lemma TodayOnDay(list: seq<Lesson>, today: Weekday, dateDay: DateDay)
    requires DayLessons(list, today, dateDay) != []
    ensures forall l :: l in TodayLessons(list, today, dateDay) <==> l in list && DetectWeekday(l, dateDay) == Some(today)
  {
    DayLessonsExact(list, today, dateDay);
  }
}
