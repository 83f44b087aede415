/** The reminder mail (backend/services/emailService.js): escapeHtml, the
    grouping of pending tasks by user, the composed messages and the send
    loop. The mail transport is a caller-supplied function saying whether
    a send went through, and a due date's toDateString is a caller-supplied
    rendering. */
module EmailService {
  import opened Common
  import opened Decimal

  // ---------------------------------------------------------------------
  // escapeHtml
  // ---------------------------------------------------------------------

  /** `s.replace(/c/g, by)`: every occurrence of `c` replaced by `repl`. */
  function ReplaceAll(s: string, c: char, repl: string): string
  {
    if s == [] then []
    else (if s[0] == c then repl else [s[0]]) + ReplaceAll(s[1..], c, repl)
  }

  /** Replacing leaves text without `c` as it is, and what comes out is
      either a character of the input other than `c` or one of `repl`. */
  lemma {:induction false} ReplaceAllChars(s: string, c: char, repl: string)
    ensures c !in s ==> ReplaceAll(s, c, repl) == s
    ensures forall x :: x in ReplaceAll(s, c, repl) ==> (x in s && x != c) || x in repl
  {
    if s != [] {
      ReplaceAllChars(s[1..], c, repl);
      assert forall x :: x in s[1..] ==> x in s;
    }
  }

  /** escapeHtml: the five replacements, ampersand first. */
  function EscapeHtml(s: string): string
  {
    var a := ReplaceAll(s, '&', "&amp;");
    var b := ReplaceAll(a, '<', "&lt;");
    var c := ReplaceAll(b, '>', "&gt;");
    var d := ReplaceAll(c, '"', "&quot;");
    ReplaceAll(d, '\'', "&#39;")
  }

  predicate Special(c: char)
  {
    c == '&' || c == '<' || c == '>' || c == '"' || c == '\''
  }

  /** The entity of one character. */
  function EscapeChar(c: char): (r: string)
    ensures !Special(c) ==> r == [c]
  {
    match c
    case '&' => "&amp;"
    case '<' => "&lt;"
    case '>' => "&gt;"
    case '"' => "&quot;"
    case '\'' => "&#39;"
    case _ => [c]
  }

  /** Each character replaced by its entity, independently of the others. */
  function EscapeEach(s: string): string
  {
    if s == [] then [] else EscapeChar(s[0]) + EscapeEach(s[1..])
  }

  lemma {:induction false} ReplaceAllConcat(a: string, b: string, c: char, repl: string)
    ensures ReplaceAll(a + b, c, repl) == ReplaceAll(a, c, repl) + ReplaceAll(b, c, repl)
  {
    if a == [] {
      assert a + b == b;
    } else {
      assert (a + b)[0] == a[0];
      assert (a + b)[1..] == a[1..] + b;
      ReplaceAllConcat(a[1..], b, c, repl);
    }
  }

  lemma EscapeHtmlConcat(a: string, b: string)
    ensures EscapeHtml(a + b) == EscapeHtml(a) + EscapeHtml(b)
  {
    ReplaceAllConcat(a, b, '&', "&amp;");
    var a1, b1 := ReplaceAll(a, '&', "&amp;"), ReplaceAll(b, '&', "&amp;");
    ReplaceAllConcat(a1, b1, '<', "&lt;");
    var a2, b2 := ReplaceAll(a1, '<', "&lt;"), ReplaceAll(b1, '<', "&lt;");
    ReplaceAllConcat(a2, b2, '>', "&gt;");
    var a3, b3 := ReplaceAll(a2, '>', "&gt;"), ReplaceAll(b2, '>', "&gt;");
    ReplaceAllConcat(a3, b3, '"', "&quot;");
    var a4, b4 := ReplaceAll(a3, '"', "&quot;"), ReplaceAll(b3, '"', "&quot;");
    ReplaceAllConcat(a4, b4, '\'', "&#39;");
  }

  lemma ReplaceAllOne(x: char, c: char, repl: string)
    ensures ReplaceAll([x], c, repl) == if x == c then repl else [x]
  {
    assert [x][1..] == [];
  }

  /** The replacements after the one that wrote entity `e` leave it be. */
  lemma EntityStays(e: string, after: seq<(char, string)>)
    requires forall k :: 0 <= k < |after| ==> after[k].0 !in e
    ensures Chain(e, after) == e
    decreases |after|
  {
    if after != [] {
      ReplaceAllChars(e, after[0].0, after[0].1);
      EntityStays(e, after[1..]);
    }
  }

  /** Replacements applied in order. */
  function Chain(s: string, steps: seq<(char, string)>): string
    decreases |steps|
  {
    if steps == [] then s else Chain(ReplaceAll(s, steps[0].0, steps[0].1), steps[1..])
  }

  const Steps: seq<(char, string)> :=
    [('&', "&amp;"), ('<', "&lt;"), ('>', "&gt;"), ('"', "&quot;"), ('\'', "&#39;")]

  lemma EscapeHtmlIsChain(s: string)
    ensures EscapeHtml(s) == Chain(s, Steps)
  {
    assert Steps[1..][1..][1..][1..][1..] == [];
  }

  /** A character other than the first `k` steps' passes them unchanged. */
  lemma {:induction false} ChainOne(x: char, steps: seq<(char, string)>)
    requires forall k :: 0 <= k < |steps| ==> steps[k].0 != x
    ensures Chain([x], steps) == [x]
    decreases |steps|
  {
    if steps != [] {
      ReplaceAllOne(x, steps[0].0, steps[0].1);
      ChainOne(x, steps[1..]);
    }
  }

  /** No entity holds a character replaced after it, and no character is
      replaced twice. */
  lemma StepsOrdered()
    ensures forall k, j :: 0 <= k < j < |Steps| ==> Steps[j].0 !in Steps[k].1 && Steps[j].0 != Steps[k].0
  {
    assert Steps[0].1 == ['&', 'a', 'm', 'p', ';'];
    assert Steps[1].1 == ['&', 'l', 't', ';'];
    assert Steps[2].1 == ['&', 'g', 't', ';'];
    assert Steps[3].1 == ['&', 'q', 'u', 'o', 't', ';'];
  }

  /** A character that is the `k`-th replaced one becomes that step's
      entity, which the later steps leave be. */
  lemma {:induction false} ChainSpecial(x: char, steps: seq<(char, string)>, k: nat)
    requires k < |steps| && steps[k].0 == x
    requires forall j :: 0 <= j < k ==> steps[j].0 != x
    requires forall j :: k < j < |steps| ==> steps[j].0 !in steps[k].1
    ensures Chain([x], steps) == steps[k].1
    decreases k
  {
    if k == 0 {
      ReplaceAllOne(x, steps[0].0, steps[0].1);
      EntityStays(steps[0].1, steps[1..]);
    } else {
      ReplaceAllOne(x, steps[0].0, steps[0].1);
      ChainSpecial(x, steps[1..], k - 1);
    }
  }

  /** One character goes to its own entity: the entities the earlier
      replacements introduce hold none of the later characters. */
  lemma EscapeHtmlChar(x: char)
    ensures EscapeHtml([x]) == EscapeChar(x)
  {
    EscapeHtmlIsChain([x]);
    var st := Steps;
    StepsOrdered();
    if x == '&' {
      ChainSpecial(x, st, 0);
    } else if x == '<' {
      ChainSpecial(x, st, 1);
    } else if x == '>' {
      ChainSpecial(x, st, 2);
    } else if x == '"' {
      ChainSpecial(x, st, 3);
    } else if x == '\'' {
      ChainSpecial(x, st, 4);
    } else {
      ChainOne(x, st);
    }
  }

  /** No entity holds a markup character. */
  lemma EscapeCharHasNoMarkup(x: char)
    ensures '<' !in EscapeChar(x) && '>' !in EscapeChar(x) && '"' !in EscapeChar(x) && '\'' !in EscapeChar(x)
  {
    assert "&amp;" == ['&', 'a', 'm', 'p', ';'];
    assert "&lt;" == ['&', 'l', 't', ';'];
    assert "&gt;" == ['&', 'g', 't', ';'];
    assert "&quot;" == ['&', 'q', 'u', 'o', 't', ';'];
    assert "&#39;" == ['&', '#', '3', '9', ';'];
  }

  lemma {:induction false} EscapeEachHasNoMarkup(s: string)
    ensures '<' !in EscapeEach(s) && '>' !in EscapeEach(s) && '"' !in EscapeEach(s) && '\'' !in EscapeEach(s)
  {
    if s != [] {
      EscapeCharHasNoMarkup(s[0]);
      EscapeEachHasNoMarkup(s[1..]);
    }
  }

  /** Because '&' goes first, escapeHtml is a per-character mapping: the
      entities it writes are never escaped a second time. */
  lemma {:induction false} EscapeHtmlIsPerCharacter(s: string)
    ensures EscapeHtml(s) == EscapeEach(s)
  {
    if s != [] {
      assert s == [s[0]] + s[1..];
      EscapeHtmlConcat([s[0]], s[1..]);
      EscapeHtmlChar(s[0]);
      EscapeHtmlIsPerCharacter(s[1..]);
    }
  }

  /** escapeHtml leaves no raw markup character: every '<', '>', '"' and
      quote of the input has become an entity, and the entities hold none. */
  lemma EscapeHtmlHasNoMarkup(s: string)
    ensures '<' !in EscapeHtml(s) && '>' !in EscapeHtml(s) && '"' !in EscapeHtml(s) && '\'' !in EscapeHtml(s)
  {
    EscapeHtmlIsPerCharacter(s);
    EscapeEachHasNoMarkup(s);
  }

  /** On text without any of the five characters escapeHtml changes nothing. */
  lemma EscapeHtmlIdentity(s: string)
    requires forall i :: 0 <= i < |s| ==> !Special(s[i])
    ensures EscapeHtml(s) == s
  {
    ReplaceAllChars(s, '&', "&amp;");
    ReplaceAllChars(s, '<', "&lt;");
    ReplaceAllChars(s, '>', "&gt;");
    ReplaceAllChars(s, '"', "&quot;");
    ReplaceAllChars(s, '\'', "&#39;");
  }

  // ---------------------------------------------------------------------
  // Grouping pending tasks by user
  // ---------------------------------------------------------------------

  /** A populated task owner: `name` and `email` may be missing. */
  datatype Recipient = Recipient(id: UserId, name: Option<string>, email: Option<string>)

  /** A pending task; `user` is None when the owner could not be
      populated. */
  datatype PendingTask = PendingTask(title: string, dueDate: Option<int>, user: Option<Recipient>)

  datatype Group = Group(user: Recipient, tasks: seq<PendingTask>)

  predicate OwnedBy(t: PendingTask, id: UserId)
  {
    t.user.Some? && t.user.value.id == id
  }

  /** Position of the group of a user, or the number of groups. */
  function GroupIndex(groups: seq<Group>, id: UserId): (i: nat)
    ensures i <= |groups|
    ensures i < |groups| ==> groups[i].user.id == id
    ensures forall k :: 0 <= k < i ==> groups[k].user.id != id
  {
    if groups == [] then 0
    else if groups[0].user.id == id then 0
    else 1 + GroupIndex(groups[1..], id)
  }

  lemma GroupIndexBound(groups: seq<Group>, id: UserId, j: nat)
    requires j < |groups| && groups[j].user.id == id
    ensures GroupIndex(groups, id) <= j
  {
  }

  predicate DistinctUsers(groups: seq<Group>)
  {
    forall i, j :: 0 <= i < j < |groups| ==> groups[i].user.id != groups[j].user.id
  }

  /** One step of the reduce: push onto the user's group, creating it
      (with this task's user) when it is new. */
  function AddToGroups(groups: seq<Group>, t: PendingTask): seq<Group>
    requires t.user.Some?
  {
    var i := GroupIndex(groups, t.user.value.id);
    if i < |groups| then groups[i := groups[i].(tasks := groups[i].tasks + [t])]
    else groups + [Group(t.user.value, [t])]
  }

  /** The map the reduce builds, in the order its keys were created. */
  function Grouped(ts: seq<PendingTask>): seq<Group>
  {
    if ts == [] then []
    else
      var t := ts[|ts| - 1];
      var acc := Grouped(ts[..|ts| - 1]);
      if t.user.None? then acc else AddToGroups(acc, t)
  }

  /** The tasks of one user, in their original order. */
  function TasksOf(ts: seq<PendingTask>, id: UserId): (r: seq<PendingTask>)
    ensures forall x :: x in r <==> x in ts && OwnedBy(x, id)
  {
    if ts == [] then []
    else TasksOf(ts[..|ts| - 1], id) + (if OwnedBy(ts[|ts| - 1], id) then [ts[|ts| - 1]] else [])
  }

  lemma AddToGroupsSpec(groups: seq<Group>, t: PendingTask)
    requires t.user.Some? && DistinctUsers(groups)
    ensures var r := AddToGroups(groups, t);
            && DistinctUsers(r)
            && |groups| <= |r| <= |groups| + 1
            && (forall i :: 0 <= i < |groups| ==> r[i].user == groups[i].user)
            && (forall i :: 0 <= i < |r| ==>
                  r[i].tasks == (if i < |groups| then groups[i].tasks else []) + (if r[i].user.id == t.user.value.id then [t] else []))
            && (|r| == |groups| + 1 ==> r[|groups|].user == t.user.value)
            && GroupIndex(r, t.user.value.id) < |r|
  {
    var i := GroupIndex(groups, t.user.value.id);
    if i == |groups| {
      GroupIndexBound(AddToGroups(groups, t), t.user.value.id, i);
    }
  }

  lemma TasksOfStep(ts: seq<PendingTask>, t: PendingTask)
    ensures forall id :: TasksOf(ts + [t], id) == TasksOf(ts, id) + (if OwnedBy(t, id) then [t] else [])
  {
    assert (ts + [t])[..|ts|] == ts;
  }

  /** The grouping facts carried from `pre` to `pre + [t]` by one push. */
  lemma AddToGroupsEntries(pre: seq<PendingTask>, acc: seq<Group>, t: PendingTask)
    requires t.user.Some? && DistinctUsers(acc)
    requires forall i :: 0 <= i < |acc| ==> acc[i].tasks == TasksOf(pre, acc[i].user.id) != []
    requires forall id :: TasksOf(pre, id) != [] ==> GroupIndex(acc, id) < |acc|
    ensures DistinctUsers(AddToGroups(acc, t))
    ensures forall i :: 0 <= i < |AddToGroups(acc, t)| ==>
              AddToGroups(acc, t)[i].tasks == TasksOf(pre + [t], AddToGroups(acc, t)[i].user.id) != []
  {
    TasksOfStep(pre, t);
    AddToGroupsSpec(acc, t);
    var r := AddToGroups(acc, t);
    forall i | 0 <= i < |r| ensures r[i].tasks == TasksOf(pre + [t], r[i].user.id) != [] {
      if i == |acc| {
        assert GroupIndex(acc, t.user.value.id) == |acc|;
        assert TasksOf(pre, t.user.value.id) == [];
      }
    }
  }

  /** Each group belongs to a different user and holds exactly that user's
      tasks, in their original order. */
  lemma {:induction false} GroupedEntries(ts: seq<PendingTask>)
    ensures DistinctUsers(Grouped(ts))
    ensures forall i :: 0 <= i < |Grouped(ts)| ==>
              Grouped(ts)[i].tasks == TasksOf(ts, Grouped(ts)[i].user.id) != []
    decreases |ts|
  {
    if ts != [] {
      var pre := ts[..|ts| - 1];
      var t := ts[|ts| - 1];
      assert ts == pre + [t];
      GroupedEntries(pre);
      if t.user.Some? {
        GroupedComplete(pre);
        AddToGroupsEntries(pre, Grouped(pre), t);
      } else {
        TasksOfStep(pre, t);
      }
    }
  }

  /** Every user owning a task has a group. */
  lemma {:induction false} GroupedComplete(ts: seq<PendingTask>)
    ensures forall id :: TasksOf(ts, id) != [] ==> GroupIndex(Grouped(ts), id) < |Grouped(ts)|
    decreases |ts|
  {
    if ts != [] {
      var pre := ts[..|ts| - 1];
      var t := ts[|ts| - 1];
      assert ts == pre + [t];
      GroupedComplete(pre);
      GroupedEntries(pre);
      TasksOfStep(pre, t);
      var acc := Grouped(pre);
      var r := Grouped(ts);
      if t.user.Some? {
        AddToGroupsSpec(acc, t);
        forall id | TasksOf(ts, id) != [] ensures GroupIndex(r, id) < |r| {
          if id != t.user.value.id {
            var j := GroupIndex(acc, id);
            assert r[j].user.id == id;
            GroupIndexBound(r, id, j);
          }
        }
      }
    }
  }

  /** Every pending task with a populated user lies in exactly one group,
      the one keyed by its user's id; a task without a user lies in none. */
  lemma EachTaskInOneGroup(ts: seq<PendingTask>, t: PendingTask)
    requires t in ts
    ensures t.user.None? ==> forall i :: 0 <= i < |Grouped(ts)| ==> t !in Grouped(ts)[i].tasks
    ensures t.user.Some? ==>
              var g := GroupIndex(Grouped(ts), t.user.value.id);
              && g < |Grouped(ts)|
              && t in Grouped(ts)[g].tasks
              && forall i :: 0 <= i < |Grouped(ts)| && i != g ==> t !in Grouped(ts)[i].tasks
  {
    GroupedEntries(ts);
    GroupedComplete(ts);
    if t.user.Some? {
      assert t in TasksOf(ts, t.user.value.id);
    }
  }

  /** The reduce of sendTaskReminders, as a loop over the pending tasks
      that pushes each onto its user's group. */
  method GroupByUser(tasks: seq<PendingTask>) returns (groups: seq<Group>)
    ensures groups == Grouped(tasks)
    ensures DistinctUsers(groups)
    ensures forall i :: 0 <= i < |groups| ==> groups[i].tasks == TasksOf(tasks, groups[i].user.id) != []
    ensures forall t :: t in tasks && t.user.Some? ==> GroupIndex(groups, t.user.value.id) < |groups|
  {
    groups := [];
    var i := 0;
    while i < |tasks|
      invariant 0 <= i <= |tasks|
      invariant groups == Grouped(tasks[..i])
    {
      var t := tasks[i];
      assert tasks[..i + 1][..i] == tasks[..i];
      if t.user.Some? {
        var key := t.user.value.id;
        var k := GroupIndex(groups, key);
        if k < |groups| {
          groups := groups[k := groups[k].(tasks := groups[k].tasks + [t])];
        } else {
          groups := groups + [Group(t.user.value, [t])];
        }
      }
      i := i + 1;
    }
    assert tasks[..i] == tasks;
    GroupedEntries(tasks);
    GroupedComplete(tasks);
    forall t | t in tasks && t.user.Some? ensures GroupIndex(groups, t.user.value.id) < |groups| {
      assert t in TasksOf(tasks, t.user.value.id);
    }
  }

  // ---------------------------------------------------------------------
  // The message
  // ---------------------------------------------------------------------

  /** The plural suffix of 'task'. */
  function Plural(n: nat): string
  {
    if n > 1 then "s" else ""
  }

  const SubjectPrefix: string := "Task Reminder: You have "

  function Subject(n: nat): string
  {
    SubjectPrefix + NatToDecimal(n) + " pending task" + Plural(n)
  }

  /** The subject states the group's size and ends in 's' exactly when
      that size is above one. */
  lemma SubjectStatesCount(n: nat)
    ensures |SubjectPrefix| + NumDigits(n) <= |Subject(n)|
    ensures DecimalValue(Subject(n)[|SubjectPrefix|..|SubjectPrefix| + NumDigits(n)]) == n
    ensures Subject(n)[|Subject(n)| - 1] == 's' <==> n > 1
  {
    var d := NatToDecimal(n);
    assert Subject(n)[|SubjectPrefix|..|SubjectPrefix| + NumDigits(n)] == d;
    DecimalRoundTrip(n);
  }

  /** Elements joined with a separator (Array.prototype.join). */
  function Join(parts: seq<string>, sep: string): string
  {
    if parts == [] then ""
    else if |parts| == 1 then parts[0]
    else parts[0] + sep + Join(parts[1..], sep)
  }

  /** The due-date note of the text line. */
  function TextDue(t: PendingTask, dateText: int -> string): string
  {
    if t.dueDate.Some? then " (due: " + dateText(t.dueDate.value) + ")" else " (no due date)"
  }

  function HtmlDue(t: PendingTask, dateText: int -> string): string
  {
    if t.dueDate.Some? then " <em>(due: " + dateText(t.dueDate.value) + ")</em>" else " <em>(no due date)</em>"
  }

  /** The text line of one task. */
  function TextLine(t: PendingTask, dateText: int -> string): string
  {
    "- " + t.title + TextDue(t, dateText)
  }

  /** The list item of one task, its title escaped. */
  function HtmlItem(t: PendingTask, dateText: int -> string): string
  {
    "<li><strong>" + EscapeHtml(t.title) + "</strong>" + HtmlDue(t, dateText) + "</li>"
  }

  /** `tasks.map(...)` for the text lines. */
  function TextLines(ts: seq<PendingTask>, dateText: int -> string): seq<string>
  {
    if ts == [] then [] else [TextLine(ts[0], dateText)] + TextLines(ts[1..], dateText)
  }

  /** `tasks.map(...)` for the list items. */
  function HtmlItems(ts: seq<PendingTask>, dateText: int -> string): seq<string>
  {
    if ts == [] then [] else [HtmlItem(ts[0], dateText)] + HtmlItems(ts[1..], dateText)
  }

  /** One text line and one list item per task, in the group's order. */
  lemma {:induction false} OneLinePerTask(ts: seq<PendingTask>, dateText: int -> string)
    ensures |TextLines(ts, dateText)| == |HtmlItems(ts, dateText)| == |ts|
    ensures forall i :: 0 <= i < |ts| ==>
              TextLines(ts, dateText)[i] == TextLine(ts[i], dateText) && HtmlItems(ts, dateText)[i] == HtmlItem(ts[i], dateText)
  {
    if ts != [] {
      OneLinePerTask(ts[1..], dateText);
    }
  }

  /** A list item shows the task's title escaped, so a title cannot open
      or close markup of its own. */
  lemma HtmlItemShowsEscapedTitle(t: PendingTask, dateText: int -> string)
    ensures var item := HtmlItem(t, dateText);
            var n := |EscapeHtml(t.title)|;
            && 12 + n <= |item|
            && item[12..12 + n] == EscapeHtml(t.title)
            && EscapeHtml(t.title) == EscapeEach(t.title)
            && forall i :: 12 <= i < 12 + n ==> item[i] != '<' && item[i] != '>'
  {
    var e := EscapeHtml(t.title);
    var item := HtmlItem(t, dateText);
    assert item[12..12 + |e|] == e;
    EscapeHtmlHasNoMarkup(t.title);
    EscapeHtmlIsPerCharacter(t.title);
    forall i | 12 <= i < 12 + |e| ensures item[i] != '<' && item[i] != '>' {
      assert item[i] == e[i - 12];
    }
  }

  /** `user.name || ''`. */
  function NameOf(u: Recipient): string
  {
    if u.name.Some? then u.name.value else ""
  }

  const TextGreeting: string := "Hello "
  const TextIntro: string := ",\n\nYou have the following pending task"
  const TextOutro: string := "\n\nPlease complete them when you can."
  const HtmlHead: string := "<!doctype html>\n<html>\n  <body>\n    <p>Hello "
  const HtmlIntro: string := ",</p>\n    <p>You have the following pending task"
  const HtmlListOpen: string := ":</p>\n    <ul>\n      "
  const HtmlTail: string := "\n    </ul>\n    <p>Please complete them when you can.</p>\n  </body>\n</html>"

  /** The pieces of a template literal, put together. */
  function Concat(parts: seq<string>): string
  {
    if parts == [] then "" else parts[0] + Concat(parts[1..])
  }

  /** The plain-text body: a greeting and one line per task. */
  function TextBody(g: Group, dateText: int -> string): string
  {
    Concat([TextGreeting, NameOf(g.user), TextIntro, Plural(|g.tasks|), ":\n\n",
            Join(TextLines(g.tasks, dateText), "\n"), TextOutro])
  }

  /** The HTML body: the escaped name and one list item per task. */
  function HtmlBody(g: Group, dateText: int -> string): string
  {
    Concat([HtmlHead, EscapeHtml(NameOf(g.user)), HtmlIntro, Plural(|g.tasks|), HtmlListOpen,
            Join(HtmlItems(g.tasks, dateText), "\n      "), HtmlTail])
  }

  /** sendEmail's options: the HTML body when there is one, the text body
      only when there is no HTML. */
  datatype MailOptions = MailOptions(to: string, subject: string, html: Option<string>, text: Option<string>)

  function BuildMailOptions(to: string, subject: string, text: string, html: string): (m: MailOptions)
    ensures m.to == to && m.subject == subject
    ensures m.html == (if html != "" then Some(html) else None)
    ensures m.text.Some? <==> text != "" && html == ""
    ensures m.text.Some? ==> m.text.value == text
  {
    MailOptions(to, subject, if html != "" then Some(html) else None, if text != "" && html == "" then Some(text) else None)
  }

  /** The HTML body is never empty, so a reminder never carries its text
      body. */
  lemma ReminderIsHtmlOnly(to: string, g: Group, dateText: int -> string)
    ensures BuildMailOptions(to, Subject(|g.tasks|), TextBody(g, dateText), HtmlBody(g, dateText)).text.None?
    ensures BuildMailOptions(to, Subject(|g.tasks|), TextBody(g, dateText), HtmlBody(g, dateText)).html == Some(HtmlBody(g, dateText))
  {
    assert |HtmlBody(g, dateText)| > 0;
  }

  /** `if (!user.email) continue;`. */
  predicate HasEmail(u: Recipient)
  {
    u.email.Some? && u.email.value != ""
  }

  /** The groups that get a reminder, in order. */
  function Addressed(groups: seq<Group>): (r: seq<Group>)
    ensures forall i :: 0 <= i < |r| ==> HasEmail(r[i].user)
  {
    if groups == [] then []
    else Addressed(groups[..|groups| - 1]) + (if HasEmail(groups[|groups| - 1].user) then [groups[|groups| - 1]] else [])
  }

  lemma AddressedStep(groups: seq<Group>, g: Group)
    ensures Addressed(groups + [g]) == Addressed(groups) + (if HasEmail(g.user) then [g] else [])
  {
    assert (groups + [g])[..|groups|] == groups;
  }

  function Reminder(g: Group, dateText: int -> string): MailOptions
    requires HasEmail(g.user)
  {
    BuildMailOptions(g.user.email.value, Subject(|g.tasks|), TextBody(g, dateText), HtmlBody(g, dateText))
  }

  /** One attempted send: the group it was for, the mail and whether the
      transport took it. */
  datatype Attempt = Attempt(group: Group, mail: MailOptions, delivered: bool)

  /** The attempt carries the group's reminder and the transport's verdict
      on it. */
  predicate Reminded(a: Attempt, dateText: int -> string, send: MailOptions -> bool)
  {
    HasEmail(a.group.user) && a.mail == Reminder(a.group, dateText) && a.delivered == send(a.mail)
  }

  /** sendTaskReminders: one attempt per user with an email, in the order
      the groups were created; a failed send is recorded and the loop goes
      on with the next user. */
  method SendTaskReminders(tasks: seq<PendingTask>, dateText: int -> string, send: MailOptions -> bool)
    returns (attempts: seq<Attempt>)
    ensures |attempts| == |Addressed(Grouped(tasks))|
    ensures forall k :: 0 <= k < |attempts| ==> attempts[k].group == Addressed(Grouped(tasks))[k]
    ensures forall a :: a in attempts ==> Reminded(a, dateText, send)
  {
    var groups := GroupByUser(tasks);
    attempts := [];
    ghost var sent: seq<Group> := [];
    var i := 0;
    while i < |groups|
      invariant 0 <= i <= |groups|
      invariant sent == Addressed(groups[..i])
      invariant |attempts| == |sent|
      invariant forall k :: 0 <= k < |attempts| ==> attempts[k].group == sent[k]
      invariant forall a :: a in attempts ==> Reminded(a, dateText, send)
    {
      var g := groups[i];
      assert groups[..i + 1] == groups[..i] + [g];
      AddressedStep(groups[..i], g);
      if HasEmail(g.user) {
        var mail := Reminder(g, dateText);
        var ok := send(mail);
        attempts := attempts + [Attempt(g, mail, ok)];
        sent := sent + [g];
      }
      i := i + 1;
    }
    assert groups[..i] == groups;
  }
}
