/**
 * The pure helpers of the dashboard (frontend/src/App.tsx): the uptime
 * shown, the choice of a starter template, and the updates the dashboard
 * makes to its list of bots after each successful request, with the running
 * count of its header.
 *
 * The dashboard's list holds the bots as the server sent them; a field the
 * server left out is `None`. The starter templates are known only by the
 * language they are for.
 */
module Dashboard {
  import opened Wrappers
  import opened Strategy

  /** A bot as the dashboard holds it. */
  datatype BotView = BotView(
    id: string,
    name: string,
    running: bool,
    language: Option<string>,
    lastStarted: Option<string>,
    uptime: Option<int>,
    token: Option<string>,
    code: Option<string>)

  // ---------------------------------------------------------------- numbers as text

  function DigitChar(d: nat): char
    requires d < 10
  {
    "0123456789"[d]
  }

  predicate IsDigit(c: char) {
    '0' <= c <= '9'
  }

  function DigitValue(c: char): nat
    requires IsDigit(c)
  {
    (c as int) - ('0' as int)
  }

  /** The decimal digits of `n`, most significant first, without leading zeros. */
  function Digits(n: nat): (d: string)
    ensures |d| >= 1 && forall k | 0 <= k < |d| :: IsDigit(d[k])
    ensures n > 0 ==> d[0] != '0'
    decreases n
  {
    if n < 10 then [DigitChar(n)] else Digits(n / 10) + [DigitChar(n % 10)]
  }

  /** The number a string of decimal digits denotes. */
  function DigitsValue(s: string): nat
    requires forall k | 0 <= k < |s| :: IsDigit(s[k])
  {
    if s == [] then 0 else 10 * DigitsValue(s[..|s| - 1]) + DigitValue(s[|s| - 1])
  }

  /** The digits of a number denote that number. */
  lemma {:induction false} DigitsRoundTrip(n: nat)
    ensures DigitsValue(Digits(n)) == n
    decreases n
  {
    var s := Digits(n);
    if n >= 10 {
      DigitsRoundTrip(n / 10);
      assert s[..|s| - 1] == Digits(n / 10);
    } else {
      assert s[..0] == [];
    }
  }

  /** `${n}` for an integer. */
  function DecimalString(n: int): string {
    if n < 0 then "-" + Digits(-n) else Digits(n)
  }

  // ---------------------------------------------------------------- formatUptime

  /** `a % b` of JavaScript for a positive `b`: the remainder takes the sign of `a`. */
  function JsRemainder(a: int, b: int): (r: int)
    requires b > 0
    ensures a >= 0 ==> 0 <= r < b
    ensures a < 0 ==> -b < r <= 0
  {
    if a >= 0 then a % b else -((-a) % b)
  }

  /** `Math.floor(seconds / 3600)` (Dafny's `/` by a positive divisor rounds down). */
  function Hours(seconds: int): int {
    seconds / 3600
  }

  /** `Math.floor((seconds % 3600) / 60)`. */
  function Minutes(seconds: int): int {
    JsRemainder(seconds, 3600) / 60
  }

  const NotAvailable := "N/A"

  /** `formatUptime(seconds)`: `N/A` for a missing or zero uptime, otherwise `<hours>h <minutes>m`. */
  function FormatUptime(seconds: Option<int>): string {
    if seconds.None? || seconds.value == 0 then NotAvailable
    else DecimalString(Hours(seconds.value)) + "h " + DecimalString(Minutes(seconds.value)) + "m"
  }

  /**
   * A missing or zero uptime reads `N/A`; a positive one is split into
   * whole hours and the whole minutes left over, which are under an hour,
   * and together they fall short of the uptime by less than a minute.
   */
  lemma FormatUptimeSpec(seconds: Option<int>)
    ensures seconds == None || seconds == Some(0) ==> FormatUptime(seconds) == NotAvailable
    ensures seconds.Some? && seconds.value > 0 ==>
      var s, h, m := seconds.value, Hours(seconds.value), Minutes(seconds.value);
      && h >= 0 && 0 <= m < 60
      && 3600 * h + 60 * m <= s < 3600 * h + 60 * m + 60
      && FormatUptime(seconds) == Digits(h) + "h " + Digits(m) + "m"
      && FormatUptime(seconds) != NotAvailable
  {
    if seconds.Some? && seconds.value > 0 {
      var s := seconds.value;
      assert s == 3600 * (s / 3600) + s % 3600;
      assert s % 3600 == 60 * ((s % 3600) / 60) + (s % 3600) % 60;
      var shown := FormatUptime(seconds);
      DigitsRoundTrip(Hours(s));
      assert shown[|Digits(Hours(s))|] == 'h';
    }
  }

  /** A positive uptime reads back as its hours and minutes: the digits before `h` and before `m` denote them. */
  lemma FormatUptimeReadsBack(seconds: int)
    requires seconds > 0
    ensures var shown, h, m := FormatUptime(Some(seconds)), Hours(seconds), Minutes(seconds);
      && shown[..|Digits(h)|] == Digits(h)
      && shown[|Digits(h)|..|Digits(h)| + 2] == "h "
      && shown[|Digits(h)| + 2..|shown| - 1] == Digits(m)
      && shown[|shown| - 1] == 'm'
      && DigitsValue(Digits(h)) == h && DigitsValue(Digits(m)) == m
  {
    FormatUptimeSpec(Some(seconds));
    DigitsRoundTrip(Hours(seconds));
    DigitsRoundTrip(Minutes(seconds));
    var shown, dh, dm := FormatUptime(Some(seconds)), Digits(Hours(seconds)), Digits(Minutes(seconds));
    assert shown == dh + "h " + dm + "m";
    assert shown[..|dh|] == dh;
    assert shown[|dh| + 2..|shown| - 1] == dm;
  }

  // ---------------------------------------------------------------- getDefaultCode

  /** A starter template, known by the language it is written in. */
  datatype Template = Template(language: string)

  /** The languages `getDefaultCode` has a template for. */
  const TemplateLanguages: set<string> := {"javascript", "python", "typescript", "java", "csharp", "go", "ruby", "php", "bash"}

  /** `templates[language] || templates.javascript` (every template is non-empty, so only a missing key falls back). */
  function DefaultCode(language: string): Template {
    if language in TemplateLanguages then Template(language) else Template("javascript")
  }

  /**
   * A language with a template gets its own; any other, the empty one
   * included, gets the JavaScript template. The templates cover exactly the
   * languages the backend can launch.
   */
  lemma DefaultCodeSpec(language: string)
    ensures DefaultCode(language).language in TemplateLanguages
    ensures language in TemplateLanguages ==> DefaultCode(language) == Template(language)
    ensures language !in TemplateLanguages ==> DefaultCode(language) == DefaultCode("javascript")
    ensures TemplateLanguages == KnownLanguages
  {
  }

  // ---------------------------------------------------------------- the list of bots

  /** After a bot is created: `[...prev, data]`. */
  function AddBot(bots: seq<BotView>, data: BotView): seq<BotView> {
    bots + [data]
  }

  /** After an edit is saved: `prev.map(b => b.id === data.id ? data : b)`. */
  function ReplaceEdited(bots: seq<BotView>, data: BotView): seq<BotView> {
    seq(|bots|, k requires 0 <= k < |bots| => if bots[k].id == data.id then data else bots[k])
  }

  /** After a bot is deleted: `prev.filter(b => b.id !== id)`. */
  function RemoveBot(bots: seq<BotView>, id: string): seq<BotView> {
    if bots == [] then []
    else (if bots[0].id != id then [bots[0]] else []) + RemoveBot(bots[1..], id)
  }

  /** After a bot is started: `prev.map(b => b.id === id ? { ...b, running: true, lastStarted } : b)`. */
  function MarkRunning(bots: seq<BotView>, id: string, lastStarted: Option<string>): seq<BotView> {
    seq(|bots|, k requires 0 <= k < |bots| => if bots[k].id == id then bots[k].(running := true, lastStarted := lastStarted) else bots[k])
  }

  /** `bots.filter(b => b.running).length`. */
  function RunningCount(bots: seq<BotView>): (n: nat)
    ensures n <= |bots|
    ensures n == 0 <==> forall k | 0 <= k < |bots| :: !bots[k].running
  {
    if bots == [] then 0 else (if bots[0].running then 1 else 0) + RunningCount(bots[1..])
  }

  /** Adding a bot appends it: one more bot, the earlier ones as they were, the new one last. */
  lemma AddBotSpec(bots: seq<BotView>, data: BotView)
    ensures |AddBot(bots, data)| == |bots| + 1
    ensures AddBot(bots, data)[..|bots|] == bots && AddBot(bots, data)[|bots|] == data
    ensures RunningCount(AddBot(bots, data)) == RunningCount(bots) + (if data.running then 1 else 0)
  {
    RunningCountAppend(bots, [data]);
  }

  /**
   * Saving an edit replaces every bot with the edited id by the server's
   * record and leaves every other bot where and as it was; replacing twice
   * is replacing once.
   */
  lemma ReplaceEditedSpec(bots: seq<BotView>, data: BotView)
    ensures |ReplaceEdited(bots, data)| == |bots|
    ensures forall k | 0 <= k < |bots| :: bots[k].id == data.id ==> ReplaceEdited(bots, data)[k] == data
    ensures forall k | 0 <= k < |bots| :: bots[k].id != data.id ==> ReplaceEdited(bots, data)[k] == bots[k]
    ensures ReplaceEdited(ReplaceEdited(bots, data), data) == ReplaceEdited(bots, data)
    ensures (forall k | 0 <= k < |bots| :: bots[k].id != data.id) ==> ReplaceEdited(bots, data) == bots
  {
  }

  /**
   * Removing a bot keeps exactly the bots with other ids, in their order
   * (removal from a concatenation is the concatenation of the removals),
   * and never adds to the running count.
   */
  lemma {:induction false} RemoveBotSpec(bots: seq<BotView>, id: string)
    ensures forall b :: b in RemoveBot(bots, id) <==> b in bots && b.id != id
    ensures |RemoveBot(bots, id)| <= |bots|
    ensures (forall k | 0 <= k < |bots| :: bots[k].id != id) ==> RemoveBot(bots, id) == bots
    ensures RunningCount(RemoveBot(bots, id)) <= RunningCount(bots)
  {
    if bots != [] {
      RemoveBotSpec(bots[1..], id);
      assert bots == [bots[0]] + bots[1..];
      forall b ensures b in RemoveBot(bots, id) <==> b in bots && b.id != id {
        assert b in bots <==> b == bots[0] || b in bots[1..];
      }
      if forall k | 0 <= k < |bots| :: bots[k].id != id {
        forall k | 0 <= k < |bots[1..]| ensures bots[1..][k].id != id {
          assert bots[1..][k] == bots[k + 1];
        }
      }
      var head := if bots[0].id != id then [bots[0]] else [];
      RunningCountAppend(head, RemoveBot(bots[1..], id));
    }
  }

  lemma {:induction false} RemoveBotKeepsOrder(a: seq<BotView>, b: seq<BotView>, id: string)
    ensures RemoveBot(a + b, id) == RemoveBot(a, id) + RemoveBot(b, id)
  {
    if a != [] {
      assert (a + b)[1..] == a[1..] + b;
      RemoveBotKeepsOrder(a[1..], b, id);
    } else {
      assert a + b == b;
    }
  }

  /**
   * Starting a bot marks every bot with that id running with the new start
   * time and changes nothing else: the length, the other bots, and the other
   * fields are as they were; the running count does not drop.
   */
  lemma MarkRunningSpec(bots: seq<BotView>, id: string, lastStarted: Option<string>)
    ensures |MarkRunning(bots, id, lastStarted)| == |bots|
    ensures forall k | 0 <= k < |bots| && bots[k].id == id ::
      MarkRunning(bots, id, lastStarted)[k] == bots[k].(running := true, lastStarted := lastStarted)
    ensures forall k | 0 <= k < |bots| && bots[k].id != id :: MarkRunning(bots, id, lastStarted)[k] == bots[k]
    ensures RunningCount(MarkRunning(bots, id, lastStarted)) >= RunningCount(bots)
  {
    RunningCountMonotone(bots, MarkRunning(bots, id, lastStarted));
  }

  /** The running count of a concatenation is the sum of the counts. */
  lemma {:induction false} RunningCountAppend(a: seq<BotView>, b: seq<BotView>)
    ensures RunningCount(a + b) == RunningCount(a) + RunningCount(b)
  {
    if a != [] {
      assert (a + b)[1..] == a[1..] + b;
      RunningCountAppend(a[1..], b);
    } else {
      assert a + b == b;
    }
  }

  /** A list whose bots run wherever the other's do has at least its running count. */
  lemma {:induction false} RunningCountMonotone(a: seq<BotView>, b: seq<BotView>)
    requires |a| == |b| && forall k | 0 <= k < |a| :: a[k].running ==> b[k].running
    ensures RunningCount(a) <= RunningCount(b)
  {
    if a != [] {
      RunningCountMonotone(a[1..], b[1..]);
    }
  }
}
