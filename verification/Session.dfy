/** Agent sessions (agents/session.py): the compacting message window, the call budgets per
    session and per incident, and saving and loading the store. */
module Sessions {
  import opened Wrappers
  import opened Seqs
  import opened Text
  import opened Sums

  const SESSION_WINDOW: nat := 10
  const MAX_LLM_CALLS_PER_INCIDENT: nat := 12
  const MAX_CONTENT_CHARS: nat := 12000
  const AGENTS: set<string> := {"triage", "diagnostic", "planner", "reporter"}
  const MARKER: string := "[compacted "

  datatype Message = Message(role: string, content: string)

  datatype SessionError = BadRole | BadContent | BadIncident | UnknownAgent | NegativeCounter | BudgetExceeded

  // ------------------------------------------------ the window

  predicate ValidRole(role: string) {
    role == "system" || role == "user" || role == "assistant"
  }

  predicate IsMarker(m: Message) {
    m.role == "system" && MARKER <= m.content
  }

  /** The substantive messages. */
  function Reals(messages: seq<Message>): seq<Message> {
    if messages == [] then []
    else (if IsMarker(messages[0]) then [] else [messages[0]]) + Reals(messages[1..])
  }

  function MarkerFor(count: nat, head: string): (m: Message)
    ensures IsMarker(m)
  {
    var content := MARKER + Digits(count) + " earlier message(s); oldest: " + head + "]";
    assert MARKER <= MARKER + (Digits(count) + " earlier message(s); oldest: " + head + "]");
    assert content == MARKER + (Digits(count) + " earlier message(s); oldest: " + head + "]");
    Message("system", content)
  }

  /** Position of the oldest substantive message. */
  function OldestReal(messages: seq<Message>): (i: nat)
    requires Reals(messages) != []
    ensures i < |messages| && !IsMarker(messages[i]) && messages[i] == Reals(messages)[0]
    ensures forall j :: 0 <= j < i ==> IsMarker(messages[j])
  {
    if !IsMarker(messages[0]) then 0 else OldestReal(messages[1..]) + 1
  }

  function WithoutOldest(messages: seq<Message>): seq<Message>
    requires Reals(messages) != []
  {
    messages[..OldestReal(messages)] + messages[OldestReal(messages) + 1..]
  }

  lemma {:induction false} WithoutOldestReals(messages: seq<Message>)
    requires Reals(messages) != []
    ensures Reals(WithoutOldest(messages)) == Reals(messages)[1..]
  {
    if !IsMarker(messages[0]) {
      assert WithoutOldest(messages) == messages[1..];
    } else {
      WithoutOldestReals(messages[1..]);
      assert WithoutOldest(messages) == [messages[0]] + WithoutOldest(messages[1..]);
    }
  }

  datatype Window = Window(messages: seq<Message>, compacted: nat, head: string)

  /** The window after any number of accepted appends to a fresh session, `all` being the
      substantive ones among them. */
  ghost predicate Shows(w: Window, all: seq<Message>) {
    && Reals(w.messages) == (if |all| <= SESSION_WINDOW then all else all[|all| - SESSION_WINDOW..])
    && w.compacted == (if |all| <= SESSION_WINDOW then 0 else |all| - SESSION_WINDOW)
    && w.head == (if w.compacted == 0 then "" else Snippet(all[0].content))
    && (w.compacted > 0 ==> w.messages != [] && w.messages[0] == MarkerFor(w.compacted, w.head))
  }

  function Snippet(content: string): string {
    if |content| <= 40 then content else content[..40]
  }

  lemma {:induction false} RealsConcat(a: seq<Message>, b: seq<Message>)
    ensures Reals(a + b) == Reals(a) + Reals(b)
  {
    hide IsMarker;
    if a == [] {
      assert a + b == b;
    } else {
      assert (a + b)[1..] == a[1..] + b;
      RealsConcat(a[1..], b);
    }
  }

  lemma RealsOne(m: Message)
    ensures Reals([m]) == if IsMarker(m) then [] else [m]
  {
    hide IsMarker;
    assert [m][1..] == [];
  }

  lemma RealsMarkerFirst(marker: Message, messages: seq<Message>)
    requires IsMarker(marker)
    ensures Reals([marker] + messages) == Reals(messages)
    ensures messages != [] && IsMarker(messages[0]) ==> Reals(messages[0 := marker]) == Reals(messages)
  {
    assert ([marker] + messages)[1..] == messages;
    if messages != [] {
      assert messages[0 := marker][1..] == messages[1..];
    }
  }

  /** One turn of the compaction loop. */
  function Compacted(w: Window): Window
    requires Reals(w.messages) != []
  {
    var rest := WithoutOldest(w.messages);
    var head := if w.head == "" then Snippet(w.messages[OldestReal(w.messages)].content) else w.head;
    var marker := MarkerFor(w.compacted + 1, head);
    Window(if rest != [] && IsMarker(rest[0]) then rest[0 := marker] else [marker] + rest, w.compacted + 1, head)
  }

  lemma CompactedReals(w: Window)
    requires Reals(w.messages) != []
    ensures var c := Compacted(w);
      && Reals(c.messages) == Reals(w.messages)[1..] && c.compacted == w.compacted + 1
      && c.head == (if w.head == "" then Snippet(Reals(w.messages)[0].content) else w.head)
      && c.messages != [] && c.messages[0] == MarkerFor(c.compacted, c.head)
  {
    WithoutOldestReals(w.messages);
    RealsMarkerFirst(MarkerFor(Compacted(w).compacted, Compacted(w).head), WithoutOldest(w.messages));
  }

  function Enforced(w: Window): Window
    decreases |Reals(w.messages)|
  {
    if |Reals(w.messages)| <= SESSION_WINDOW then w
    else
      CompactedReals(w);
      Enforced(Compacted(w))
  }

  predicate Acceptable(role: string, content: string) {
    ValidRole(role) && !IsBlank(content) && |content| <= MAX_CONTENT_CHARS
  }

  function Appended(w: Window, role: string, content: string): Result<Window, SessionError> {
    if !ValidRole(role) then Err(BadRole)
    else if IsBlank(content) || |content| > MAX_CONTENT_CHARS then Err(BadContent)
    else Ok(Enforced(w.(messages := w.messages + [Message(role, content)])))
  }

  /** What an append accepts, which error it gives otherwise, and what counts as substantive. */
  lemma AppendExactly(w: Window, role: string, content: string)
    ensures var r := Appended(w, role, content);
      && (r.Ok? <==> role in {"system", "user", "assistant"} && !IsBlank(content) && |content| <= 12000)
      && (r == Err(BadRole) <==> role !in {"system", "user", "assistant"})
      && (r.Err? ==> r.error in {BadRole, BadContent})
    ensures Substantive(Message(role, content)) ==
      if role == "system" && "[compacted " <= content then [] else [Message(role, content)]
  {
    hide IsBlank, Enforced;
  }

  lemma ShowsMarker(w: Window, all: seq<Message>, m: Message)
    requires Shows(w, all) && IsMarker(m)
    ensures Shows(w.(messages := w.messages + [m]), all)
    ensures Enforced(w.(messages := w.messages + [m])) == w.(messages := w.messages + [m])
  {
    RealsConcat(w.messages, [m]);
    RealsOne(m);
  }

  lemma ShowsRoom(w: Window, all: seq<Message>, m: Message)
    requires Shows(w, all) && !IsMarker(m) && |all| < SESSION_WINDOW
    ensures Shows(Enforced(w.(messages := w.messages + [m])), all + [m])
  {
    RealsConcat(w.messages, [m]);
    RealsOne(m);
  }

  lemma LatestShift(all: seq<Message>, m: Message)
    requires |all| >= SESSION_WINDOW
    ensures (all[|all| - SESSION_WINDOW..] + [m])[1..] == (all + [m])[|all| + 1 - SESSION_WINDOW..]
    ensures |all| == SESSION_WINDOW ==> all[|all| - SESSION_WINDOW..] == all
  {
  }

  lemma EnforcedOnce(w: Window)
    requires |Reals(w.messages)| == SESSION_WINDOW + 1
    ensures Enforced(w) == Compacted(w)
  {
    hide Compacted;
    CompactedReals(w);
  }

  lemma ShowsFull(w: Window, all: seq<Message>, m: Message)
    requires Shows(w, all) && !IsMarker(m) && |all| >= SESSION_WINDOW
    requires forall x :: x in all ==> Snippet(x.content) != ""
    ensures Shows(Enforced(w.(messages := w.messages + [m])), all + [m])
  {
    hide Compacted, Enforced, Reals, IsMarker, MarkerFor, Snippet;
    var longer := w.(messages := w.messages + [m]);
    RealsConcat(w.messages, [m]);
    RealsOne(m);
    LatestShift(all, m);
    EnforcedOnce(longer);
    CompactedReals(longer);
    assert all[0] in all && (all + [m])[0] == all[0];
  }

  function Substantive(m: Message): seq<Message> {
    if IsMarker(m) then [] else [m]
  }

  /** The window property is kept by every append. */
  lemma AppendShows(w: Window, all: seq<Message>, role: string, content: string)
    requires Shows(w, all) && Acceptable(role, content)
    requires forall x :: x in all ==> Snippet(x.content) != ""
    ensures Shows(Appended(w, role, content).value, all + Substantive(Message(role, content)))
  {
    var m := Message(role, content);
    assert content != "";
    if IsMarker(m) {
      ShowsMarker(w, all, m);
      assert all + [] == all;
    } else if |all| < SESSION_WINDOW {
      ShowsRoom(w, all, m);
    } else {
      ShowsFull(w, all, m);
    }
  }

  lemma SubstantiveSnippet(m: Message)
    ensures Acceptable(m.role, m.content) ==> forall x :: x in Substantive(m) ==> Snippet(x.content) != ""
  {
    assert Strip("") == "";
  }

  /** A session's life: append calls, of which the refused ones change nothing. */
  function After(appends: seq<Message>): Window {
    if appends == [] then Window([], 0, "")
    else
      var before, m := After(appends[..|appends| - 1]), appends[|appends| - 1];
      match Appended(before, m.role, m.content)
      case Ok(w) => w
      case Err(_) => before
  }

  /** The accepted substantive messages of that life, oldest first. */
  function Said(appends: seq<Message>): seq<Message> {
    if appends == [] then []
    else
      var before, m := Said(appends[..|appends| - 1]), appends[|appends| - 1];
      if Acceptable(m.role, m.content) then before + Substantive(m) else before
  }

  /** Over every life of a session the model sees exactly the last ten substantive messages,
      behind a marker that counts all the others. */
  lemma {:induction false} WindowShowsLatest(appends: seq<Message>)
    ensures Shows(After(appends), Said(appends))
    ensures forall x :: x in Said(appends) ==> Snippet(x.content) != ""
  {
    if appends != [] {
      var init, m := appends[..|appends| - 1], appends[|appends| - 1];
      WindowShowsLatest(init);
      hide Shows, Enforced, Snippet, Substantive;
      SubstantiveSnippet(m);
      if Acceptable(m.role, m.content) {
        AppendShows(After(init), Said(init), m.role, m.content);
        assert m == Message(m.role, m.content);
      }
    }
  }

  // ------------------------------------------------ every message of the window

  /** The accepted messages of a life, markers of the callers' own making included. */
  function Accepted(appends: seq<Message>): seq<Message> {
    if appends == [] then []
    else
      var before, m := Accepted(appends[..|appends| - 1]), appends[|appends| - 1];
      if Acceptable(m.role, m.content) then before + [m] else before
  }

  /** Without the first `k` substantive messages. */
  function Trim(all: seq<Message>, k: nat): seq<Message> {
    if k == 0 || all == [] then all
    else if IsMarker(all[0]) then [all[0]] + Trim(all[1..], k)
    else Trim(all[1..], k - 1)
  }

  /** The first marker takes the place of a message that looks like one, if that then stands first. */
  predicate Swallows(all: seq<Message>) {
    Trim(all, 1) != [] && IsMarker(Trim(all, 1)[0])
  }

  function Rest(all: seq<Message>, k: nat): seq<Message> {
    if Swallows(all) && Trim(all, k) != [] then Trim(all, k)[1..] else Trim(all, k)
  }

  ghost predicate Holds(w: Window, all: seq<Message>) {
    && w.compacted == (if |Reals(all)| <= SESSION_WINDOW then 0 else |Reals(all)| - SESSION_WINDOW)
    && w.messages == if w.compacted == 0 then all else [MarkerFor(w.compacted, w.head)] + Rest(all, w.compacted)
  }

  lemma {:induction false} TrimSnoc(all: seq<Message>, m: Message, k: nat)
    requires k <= |Reals(all)|
    ensures Trim(all + [m], k) == Trim(all, k) + [m]
  {
    hide IsMarker;
    if k > 0 {
      assert (all + [m])[1..] == all[1..] + [m];
      if IsMarker(all[0]) {
        TrimSnoc(all[1..], m, k);
        assert [all[0]] + (Trim(all[1..], k) + [m]) == [all[0]] + Trim(all[1..], k) + [m];
      } else {
        TrimSnoc(all[1..], m, k - 1);
      }
    }
  }

  lemma {:induction false} TrimReals(all: seq<Message>, k: nat)
    requires k <= |Reals(all)|
    ensures Reals(Trim(all, k)) == Reals(all)[k..]
    ensures k > 0 && Swallows(all) ==> Trim(all, k) != [] && Trim(all, k)[0] == Trim(all, 1)[0]
  {
    hide IsMarker;
    if k > 0 {
      if IsMarker(all[0]) {
        TrimReals(all[1..], k);
        assert ([all[0]] + Trim(all[1..], k))[1..] == Trim(all[1..], k);
      } else {
        TrimReals(all[1..], k - 1);
        assert Trim(all, 1) == all[1..];
        if k > 1 && Swallows(all) {
          assert IsMarker(all[1..][0]);
        }
      }
    }
  }

  lemma {:induction false} TrimNext(all: seq<Message>, k: nat)
    requires k < |Reals(all)| && Reals(Trim(all, k)) != []
    ensures WithoutOldest(Trim(all, k)) == Trim(all, k + 1)
  {
    hide IsMarker;
    if IsMarker(all[0]) {
      TrimReals(all[1..], k);
      TrimNext(all[1..], k);
      hide WithoutOldest, Reals;
      MarkerStays(all[0], Trim(all[1..], k));
      assert k == 0 ==> all == [all[0]] + all[1..];
    } else if k == 0 {
      assert WithoutOldest(all) == all[1..];
    } else {
      hide WithoutOldest;
      TrimNext(all[1..], k - 1);
    }
  }

  lemma MarkerStays(marker: Message, messages: seq<Message>)
    requires IsMarker(marker) && Reals(messages) != []
    ensures Reals([marker] + messages) == Reals(messages)
    ensures WithoutOldest([marker] + messages) == [marker] + WithoutOldest(messages)
  {
    assert ([marker] + messages)[1..] == messages;
  }

  lemma RestNext(all: seq<Message>, k: nat)
    requires 0 < k < |Reals(all)|
    ensures Reals(Rest(all, k)) != [] && WithoutOldest(Rest(all, k)) == Rest(all, k + 1)
  {
    hide IsMarker, WithoutOldest, Trim;
    TrimReals(all, k);
    TrimReals(all, k + 1);
    TrimNext(all, k);
    var t := Trim(all, k);
    if Swallows(all) {
      assert t == [t[0]] + t[1..];
      RealsMarkerFirst(t[0], t[1..]);
      MarkerStays(t[0], t[1..]);
    }
  }

  lemma AppendHolds(w: Window, all: seq<Message>, role: string, content: string)
    requires Holds(w, all) && Acceptable(role, content)
    ensures Holds(Appended(w, role, content).value, all + [Message(role, content)])
  {
    var m := Message(role, content);
    var longer, more := w.(messages := w.messages + [m]), all + [m];
    RealsConcat(all, [m]);
    RealsOne(m);
    HeldReals(w, all);
    RealsConcat(w.messages, [m]);
    hide IsMarker, Trim, MarkerFor, Compacted, Reals, Rest, IsBlank;
    if w.compacted > 0 {
      RestSnoc(all, m, w.compacted);
    }
    if |Reals(more)| <= SESSION_WINDOW || IsMarker(m) {
      assert Enforced(longer) == longer;
    } else {
      EnforcedOnce(longer);
      assert longer.messages ==
        if w.compacted == 0 then more else [MarkerFor(w.compacted, w.head)] + Rest(more, w.compacted);
      CompactedHolds(longer, more);
    }
  }

  lemma HeldReals(w: Window, all: seq<Message>)
    requires Holds(w, all)
    ensures |Reals(w.messages)| == if |Reals(all)| <= SESSION_WINDOW then |Reals(all)| else SESSION_WINDOW
  {
    if w.compacted > 0 {
      TrimReals(all, w.compacted);
      RestReals(all, w.compacted);
      hide IsMarker, Trim, MarkerFor, Rest;
      RealsMarkerFirst(MarkerFor(w.compacted, w.head), Rest(all, w.compacted));
    }
  }

  lemma RestReals(all: seq<Message>, k: nat)
    requires 0 < k <= |Reals(all)|
    ensures Reals(Rest(all, k)) == Reals(Trim(all, k))
  {
    hide IsMarker, Trim;
    TrimReals(all, k);
    var t := Trim(all, k);
    if Swallows(all) {
      assert t == [t[0]] + t[1..];
      RealsMarkerFirst(t[0], t[1..]);
    }
  }

  lemma RestSnoc(all: seq<Message>, m: Message, k: nat)
    requires 0 < k < |Reals(all)|
    ensures Rest(all + [m], k) == Rest(all, k) + [m]
  {
    hide IsMarker, Trim;
    TrimSnoc(all, m, k);
    TrimSnoc(all, m, 1);
    TrimReals(all, 1);
    TrimReals(all, k);
    hide Reals;
    assert Trim(all, 1) != [] && Trim(all, k) != [];
  }

  lemma CompactedHolds(w: Window, all: seq<Message>)
    requires |Reals(all)| > SESSION_WINDOW && w.compacted == |Reals(all)| - SESSION_WINDOW - 1
    requires w.messages == if w.compacted == 0 then all else [MarkerFor(w.compacted, w.head)] + Rest(all, w.compacted)
    requires Reals(w.messages) != []
    ensures Holds(Compacted(w), all)
  {
    var k, c := w.compacted, Compacted(w);
    var rest := WithoutOldest(w.messages);
    assert c.compacted == k + 1 && c.messages ==
      if rest != [] && IsMarker(rest[0]) then rest[0 := MarkerFor(k + 1, c.head)] else [MarkerFor(k + 1, c.head)] + rest;
    if k == 0 {
      TrimNext(all, 0);
      assert rest == Trim(all, 1);
    } else {
      RestNext(all, k);
      var marker := MarkerFor(k, w.head);
      MarkerStays(marker, Rest(all, k));
      assert rest == [marker] + Rest(all, k + 1);
    }
    hide Compacted, Reals, WithoutOldest, Trim, MarkerFor, IsMarker;
    MarkerPlaced(rest, MarkerFor(k + 1, c.head));
  }

  lemma MarkerPlaced(rest: seq<Message>, marker: Message)
    ensures rest != [] ==> rest[0 := marker] == [marker] + rest[1..]
  {
  }

  /** Over every life of a session its messages are exactly the accepted ones, but for all
      substantive ones before the last ten, with one marker in front that stands for these. */
  lemma {:induction false} MessagesExactly(appends: seq<Message>)
    ensures Holds(After(appends), Accepted(appends))
  {
    if appends != [] {
      var init, m := appends[..|appends| - 1], appends[|appends| - 1];
      MessagesExactly(init);
      hide Holds, Enforced;
      if Acceptable(m.role, m.content) {
        AppendHolds(After(init), Accepted(init), m.role, m.content);
        assert m == Message(m.role, m.content);
      }
    }
  }

  /** What a marker says: so many messages, the oldest of them beginning like this. */
  ghost predicate Says(m: Message, text: string, head: string) {
    && m.role == "system" && IsNumber(text)
    && m.content == "[compacted " + text + " earlier message(s); oldest: " + head + "]"
  }

  /** Count and anchor can be read back from a marker, in one way only. */
  lemma SaysOnce(m: Message, text: string, head: string, text2: string, head2: string)
    requires Says(m, text, head) && Says(m, text2, head2)
    ensures text == text2 && head == head2
  {
    var pre, middle, c := "[compacted ", " earlier message(s); oldest: ", m.content;
    assert |pre| == 11 && c == pre + text + middle + head + "]" == pre + text2 + middle + head2 + "]";
    assert c[11 + |text|] == ' ' && c[11 + |text2|] == ' ';
    assert forall i :: 0 <= i < |text| ==> c[11 + i] == text[i];
    assert forall i :: 0 <= i < |text2| ==> c[11 + i] == text2[i];
    assert !IsDigit(' ') && |text| == |text2|;
    assert text == c[11..11 + |text|] == text2;
    assert head == c[11 + |text| + |middle|..|c| - 1] == head2;
  }

  lemma MarkerSays(count: nat, head: string)
    ensures Says(MarkerFor(count, head), Digits(count), head)
    ensures ParseNat(Digits(count)) == count
  {
    DigitsReadBack(count);
  }

  /** Over every life of a session the first message tells how many substantive messages are
      hidden, all but the last ten, and the first forty characters of the oldest one. */
  lemma FirstMessageTells(appends: seq<Message>) returns (text: string)
    requires |Said(appends)| > 10
    ensures After(appends).messages != [] && IsNumber(text) && ParseNat(text) == |Said(appends)| - 10
    ensures var oldest := Said(appends)[0].content;
      Says(After(appends).messages[0], text, if |oldest| <= 40 then oldest else oldest[..40])
  {
    WindowShowsLatest(appends);
    var w := After(appends);
    text := Digits(w.compacted);
    MarkerSays(w.compacted, w.head);
  }

  // ------------------------------------------------ the budgets, as numbers

  type Key = (string, string)

  function Only(ledger: map<Key, nat>, incident: string): map<Key, nat> {
    map k | k in ledger && k.0 == incident :: ledger[k]
  }

  ghost function TotalFor(ledger: map<Key, nat>, incident: string): nat {
    Total(Only(ledger, incident))
  }

  function Calls(calls: map<string, nat>, incident: string): nat {
    if incident in calls then calls[incident] else 0
  }

  ghost predicate BalancedFor(ledger: map<Key, nat>, calls: map<string, nat>, incident: string) {
    Calls(calls, incident) == TotalFor(ledger, incident)
  }

  /** The aggregate of every incident is the sum over its agents. */
  ghost predicate Balanced(ledger: map<Key, nat>, calls: map<string, nat>) {
    forall i :: BalancedFor(ledger, calls, i)
  }

  ghost predicate WithinBudget(calls: map<string, nat>) {
    forall i :: Calls(calls, i) <= MAX_LLM_CALLS_PER_INCIDENT
  }

  lemma RoomStaysWithin(calls: map<string, nat>, incident: string)
    requires WithinBudget(calls) && Calls(calls, incident) < MAX_LLM_CALLS_PER_INCIDENT
    ensures WithinBudget(calls[incident := Calls(calls, incident) + 1])
  {
    var more := calls[incident := Calls(calls, incident) + 1];
    forall i ensures Calls(more, i) <= MAX_LLM_CALLS_PER_INCIDENT {
      assert Calls(calls, i) <= MAX_LLM_CALLS_PER_INCIDENT;
    }
  }

  lemma OverBudget(ledger: map<Key, nat>, calls: map<string, nat>, k: Key)
    requires Balanced(ledger, calls) && k in ledger && ledger[k] > MAX_LLM_CALLS_PER_INCIDENT
    ensures !WithinBudget(calls)
  {
    SessionBelowTotal(ledger, k);
    assert BalancedFor(ledger, calls, k.0);
    assert Calls(calls, k.0) > MAX_LLM_CALLS_PER_INCIDENT;
  }

  lemma WithinExactly(calls: map<string, nat>)
    ensures WithinBudget(calls) <==> forall i :: i in calls ==> calls[i] <= MAX_LLM_CALLS_PER_INCIDENT
  {
    forall i | i in calls && WithinBudget(calls) ensures calls[i] <= MAX_LLM_CALLS_PER_INCIDENT {
      assert Calls(calls, i) == calls[i];
    }
  }

  lemma TotalForUpdate(ledger: map<Key, nat>, k: Key, v: nat, incident: string)
    ensures TotalFor(ledger[k := v], incident) + (if k in ledger && k.0 == incident then ledger[k] else 0)
         == TotalFor(ledger, incident) + (if k.0 == incident then v else 0)
  {
    if k.0 == incident {
      assert Only(ledger[k := v], incident) == Only(ledger, incident)[k := v];
      TotalUpdate(Only(ledger, incident), k, v);
    } else {
      assert Only(ledger[k := v], incident) == Only(ledger, incident);
    }
  }

  /** No session exceeds its incident. */
  lemma SessionBelowTotal(ledger: map<Key, nat>, k: Key)
    requires k in ledger
    ensures ledger[k] <= TotalFor(ledger, k.0)
  {
    TotalWithout(Only(ledger, k.0), k);
  }

  lemma SessionBelowCalls(ledger: map<Key, nat>, calls: map<string, nat>, k: Key)
    requires Balanced(ledger, calls) && k in ledger
    ensures ledger[k] <= Calls(calls, k.0)
  {
    SessionBelowTotal(ledger, k);
    assert BalancedFor(ledger, calls, k.0);
  }

  /** Counting one call on both sides keeps the books balanced. */
  lemma CallKeepsBalance(ledger: map<Key, nat>, calls: map<string, nat>, k: Key)
    requires Balanced(ledger, calls) && k in ledger
    ensures Balanced(ledger[k := ledger[k] + 1], calls[k.0 := Calls(calls, k.0) + 1])
  {
    var more, count := ledger[k := ledger[k] + 1], calls[k.0 := Calls(calls, k.0) + 1];
    forall i ensures BalancedFor(more, count, i) {
      assert BalancedFor(ledger, calls, i);
      TotalForUpdate(ledger, k, ledger[k] + 1, i);
    }
  }

  /** A new entry is balanced by adding its calls to its incident. */
  lemma EntryKeepsBalance(ledger: map<Key, nat>, calls: map<string, nat>, k: Key, v: nat)
    requires Balanced(ledger, calls) && k !in ledger
    ensures Balanced(ledger[k := v], calls[k.0 := Calls(calls, k.0) + v])
    ensures v == 0 ==> Balanced(ledger[k := v], calls)
  {
    var more, count := ledger[k := v], calls[k.0 := Calls(calls, k.0) + v];
    forall i ensures BalancedFor(more, count, i) && (v == 0 ==> BalancedFor(more, calls, i)) {
      assert BalancedFor(ledger, calls, i);
      TotalForUpdate(ledger, k, v, i);
    }
  }

  /** The sessions settle the aggregates. */
  lemma BalanceSettles(ledger: map<Key, nat>, calls: map<string, nat>, others: map<string, nat>)
    requires Balanced(ledger, calls) && Balanced(ledger, others)
    ensures forall i :: Calls(calls, i) == Calls(others, i)
    ensures WithinBudget(calls) ==> WithinBudget(others)
  {
    forall i ensures Calls(calls, i) == Calls(others, i) {
      assert BalancedFor(ledger, calls, i) && BalancedFor(ledger, others, i);
    }
  }

  lemma EmptyBalance()
    ensures Balanced(map[], map[])
  {
    forall i ensures BalancedFor(map[], map[], i) {
      assert Only(map[], i) == map[];
    }
  }

  // ------------------------------------------------ saving and loading, as values

  /** One session in the file; the counters may be anything a file can say. */
  datatype Saved = Saved(incidentId: string, agent: string, messages: seq<Message>, llmCalls: int,
                         compacted: int, head: string)

  type Book = map<Key, Saved>

  /** The entry of a session that was just created. */
  function Blank(incidentId: string, agent: string): Saved {
    Saved(incidentId, agent, [], 0, 0, "")
  }

  function Touched(b: Book, incidentId: string, agent: string): Book {
    if (incidentId, agent) in b then b else b[(incidentId, agent) := Blank(incidentId, agent)]
  }

  ghost predicate Counted(b: Book) {
    forall k :: k in b ==> b[k].llmCalls >= 0
  }

  /** The calls each session has made. */
  function Spent(b: Book): map<Key, nat>
    requires Counted(b)
  {
    map k | k in b :: b[k].llmCalls
  }

  /** A session that has made no call yet changes no balance. */
  lemma TouchedKeepsBalance(b: Book, calls: map<string, nat>, incidentId: string, agent: string)
    requires Counted(b) && Balanced(Spent(b), calls)
    ensures Counted(Touched(b, incidentId, agent)) && Balanced(Spent(Touched(b, incidentId, agent)), calls)
  {
    var k := (incidentId, agent);
    if k !in b {
      hide Balanced;
      EntryKeepsBalance(Spent(b), calls, k, 0);
      assert Spent(Touched(b, incidentId, agent)) == Spent(b)[k := 0];
    }
  }

  predicate RolesOk(messages: seq<Message>) {
    forall i :: 0 <= i < |messages| ==> ValidRole(messages[i].role)
  }

  /** Writing one entry of the file into a session: the messages go in before the roles and
      the counters are looked at. */
  function Filled(s: Saved, x: Saved): (Saved, Option<SessionError>) {
    var t := s.(messages := x.messages);
    if !RolesOk(x.messages) then (t, Some(BadRole))
    else if x.llmCalls < 0 || x.compacted < 0 then (t, Some(NegativeCounter))
    else (t.(llmCalls := x.llmCalls, compacted := x.compacted, head := x.head), None)
  }

  /** One entry of the file: an error stops the load, with what was written so far. */
  function LoadItem(b: Book, x: Saved): (Book, Option<SessionError>) {
    if IsBlank(x.incidentId) then (b, Some(BadIncident))
    else if x.agent !in AGENTS then (b, Some(UnknownAgent))
    else
      var k, t := (x.incidentId, x.agent), Touched(b, x.incidentId, x.agent);
      var (s, e) := Filled(t[k], x);
      (t[k := s], e)
  }

  lemma LoadItemCases(b: Book, x: Saved)
    ensures IsBlank(x.incidentId) ==> LoadItem(b, x) == (b, Some(BadIncident))
    ensures !IsBlank(x.incidentId) && x.agent !in AGENTS ==> LoadItem(b, x) == (b, Some(UnknownAgent))
    ensures !IsBlank(x.incidentId) && x.agent in AGENTS ==>
      var k, t := (x.incidentId, x.agent), Touched(b, x.incidentId, x.agent);
      k in t && LoadItem(b, x).0 == t[k := Filled(t[k], x).0] && LoadItem(b, x).1 == Filled(t[k], x).1
  {
  }

  function LoadItems(b: Book, items: seq<Saved>): (Book, Option<SessionError>) {
    if items == [] then (b, None)
    else
      var (before, e) := LoadItems(b, items[..|items| - 1]);
      if e.Some? then (before, e) else LoadItem(before, items[|items| - 1])
  }

  function SaveAll(order: seq<Key>, b: Book): seq<Saved>
    requires forall k :: k in order ==> k in b
  {
    if order == [] then [] else SaveAll(order[..|order| - 1], b) + [b[order[|order| - 1]]]
  }

  /** An entry that a load accepts under its own name. */
  predicate ProperEntry(k: Key, x: Saved) {
    && x.incidentId == k.0 && x.agent == k.1 && !IsBlank(k.0) && k.1 in AGENTS
    && RolesOk(x.messages) && x.llmCalls >= 0 && x.compacted >= 0
  }

  /** What the store keeps true of its entries, as long as no load fails. */
  ghost predicate Proper(b: Book) {
    forall k :: k in b ==> ProperEntry(k, b[k])
  }

  ghost predicate Named(b: Book) {
    forall k :: k in b ==> b[k].incidentId == k.0 && b[k].agent == k.1
  }

  lemma TouchedProper(b: Book, incidentId: string, agent: string)
    requires Proper(b) && !IsBlank(incidentId) && agent in AGENTS
    ensures Proper(Touched(b, incidentId, agent))
  {
  }

  lemma LoadItemProper(b: Book, x: Saved)
    requires Proper(b) && LoadItem(b, x).1.None?
    ensures Proper(LoadItem(b, x).0)
    ensures !IsBlank(x.incidentId) && x.agent in AGENTS && RolesOk(x.messages) && x.llmCalls >= 0 && x.compacted >= 0
  {
    TouchedProper(b, x.incidentId, x.agent);
  }

  /** A load without an error keeps the entries proper. */
  lemma {:induction false} LoadItemsProper(b: Book, items: seq<Saved>)
    requires Proper(b) && LoadItems(b, items).1.None?
    ensures Proper(LoadItems(b, items).0)
  {
    if items != [] {
      LoadItemsProper(b, items[..|items| - 1]);
      LoadItemProper(LoadItems(b, items[..|items| - 1]).0, items[|items| - 1]);
    }
  }

  /** Appending and compacting keep every role a known one. */
  lemma {:induction false} EnforcedRoles(w: Window)
    requires RolesOk(w.messages)
    ensures RolesOk(Enforced(w).messages)
    decreases |Reals(w.messages)|
  {
    if |Reals(w.messages)| > SESSION_WINDOW {
      CompactedReals(w);
      CompactedRoles(w);
      EnforcedRoles(Compacted(w));
    }
  }

  lemma CompactedRoles(w: Window)
    requires RolesOk(w.messages) && Reals(w.messages) != []
    ensures RolesOk(Compacted(w).messages)
  {
    hide Reals;
    var rest := WithoutOldest(w.messages);
    assert RolesOk(rest);
    assert Compacted(w).messages != [] && ValidRole(Compacted(w).messages[0].role);
  }

  lemma AppendedRoles(w: Window, role: string, content: string)
    requires RolesOk(w.messages) && Appended(w, role, content).Ok?
    ensures RolesOk(Appended(w, role, content).value.messages)
  {
    EnforcedRoles(w.(messages := w.messages + [Message(role, content)]));
  }

  function Part(order: seq<Key>, b: Book): Book
    requires forall k :: k in order ==> k in b
  {
    map k | k in order :: b[k]
  }

  lemma LoadProperItem(b: Book, x: Saved)
    requires !IsBlank(x.incidentId) && x.agent in AGENTS && RolesOk(x.messages) && x.llmCalls >= 0 && x.compacted >= 0
    requires (x.incidentId, x.agent) !in b
    ensures LoadItem(b, x) == (b[(x.incidentId, x.agent) := x], None)
  {
    hide RolesOk, IsBlank;
    assert LoadItem(b, x).0 == b[(x.incidentId, x.agent) := x];
  }

  lemma PartGrows(order: seq<Key>, b: Book)
    requires order != [] && forall k :: k in order ==> k in b
    ensures var init, k := order[..|order| - 1], order[|order| - 1];
      (forall j :: j in init ==> j in b) && Part(init, b)[k := b[k]] == Part(order, b)
  {
    var init, k := order[..|order| - 1], order[|order| - 1];
    assert order == init + [k];
  }

  lemma {:induction false} LoadSavedPart(order: seq<Key>, b: Book)
    requires Proper(b) && Distinct(order) && forall k :: k in order ==> k in b
    ensures LoadItems(map[], SaveAll(order, b)) == (Part(order, b), None)
  {
    if order == [] {
      assert Part(order, b) == map[];
    } else {
      var init, k := order[..|order| - 1], order[|order| - 1];
      assert k in order && k !in init;
      LoadSavedPart(init, b);
      SaveAllLength(init, b);
      PartGrows(order, b);
      hide LoadItem, RolesOk;
      LoadProperItem(Part(init, b), b[k]);
      var items := SaveAll(order, b);
      assert items[..|items| - 1] == SaveAll(init, b) && items[|items| - 1] == b[k];
    }
  }

  lemma {:induction false} SaveAllLength(order: seq<Key>, b: Book)
    requires forall k :: k in order ==> k in b
    ensures |SaveAll(order, b)| == |order|
  {
    if order != [] {
      SaveAllLength(order[..|order| - 1], b);
    }
  }

  /** Loading a save into a fresh store restores every session. */
  lemma SaveThenLoad(order: seq<Key>, b: Book)
    requires Proper(b) && Distinct(order) && forall k :: k in order <==> k in b
    ensures LoadItems(map[], SaveAll(order, b)) == (b, None)
  {
    LoadSavedPart(order, b);
    assert Part(order, b) == b;
  }

  lemma {:induction false} LoadedEntriesProper(order: seq<Key>, b: Book)
    requires Named(b) && forall k :: k in order ==> k in b
    requires LoadItems(map[], SaveAll(order, b)).1.None?
    ensures forall k :: k in order ==> ProperEntry(k, b[k])
    ensures Proper(LoadItems(map[], SaveAll(order, b)).0)
  {
    if order != [] {
      var init, k := order[..|order| - 1], order[|order| - 1];
      SaveAllLength(init, b);
      var items := SaveAll(order, b);
      assert items[..|items| - 1] == SaveAll(init, b) && items[|items| - 1] == b[k];
      LoadedEntriesProper(init, b);
      LoadItemProper(LoadItems(map[], SaveAll(init, b)).0, b[k]);
      assert order == init + [k];
    }
  }

  /** A save loads back exactly if every entry is proper. */
  lemma SaveLoadsBackExactly(order: seq<Key>, b: Book)
    requires Named(b) && Distinct(order) && forall k :: k in order <==> k in b
    ensures LoadItems(map[], SaveAll(order, b)).1.None? <==> Proper(b)
    ensures Proper(b) ==> LoadItems(map[], SaveAll(order, b)).0 == b
  {
    hide ProperEntry, LoadItems;
    if Proper(b) {
      SaveThenLoad(order, b);
    }
    if LoadItems(map[], SaveAll(order, b)).1.None? {
      LoadedEntriesProper(order, b);
    }
  }

  /** A file whose first entry names an unknown role is refused, but the entry stays behind in
      the store, and what the store saves from then on is refused too. */
  lemma FailedLoadSpoilsSave() returns (x: Saved)
    ensures var (b, e) := LoadItems(map[], [x]);
      && e == Some(BadRole) && b.Keys == {(x.incidentId, x.agent)}
      && LoadItems(map[], SaveAll([(x.incidentId, x.agent)], b)).1 == Some(BadRole)
  {
    x := Saved("inc", "triage", [Message("tool", "text")], 0, 0, "");
    StripUnpadded("inc");
    UnknownRole(x.messages);
    var k := (x.incidentId, x.agent);
    var left := Blank(x.incidentId, x.agent).(messages := x.messages);
    OneItem(map[], x);
    hide RolesOk, IsBlank;
    assert x.agent in AGENTS;
    assert LoadItem(map[], x).1 == Some(BadRole);
    assert LoadItem(map[], x).0 == map[k := left];
    assert [k][..0] == [] && SaveAll([k], map[k := left]) == [left];
    OneItem(map[], left);
  }

  lemma OneItem(b: Book, x: Saved)
    ensures LoadItems(b, [x]) == LoadItem(b, x)
  {
    assert [x][..0] == [];
  }

  lemma UnknownRole(messages: seq<Message>)
    requires messages == [Message("tool", "text")]
    ensures !RolesOk(messages)
  {
    assert "tool"[0] != "user"[0] && |"system"| == 6 && |"assistant"| == 9;
    assert !ValidRole(messages[0].role);
  }
}
