/** The linked objects of agents/session.py: sessions that count their calls against the store
    holding them, updated in place. */
module SessionStores {
  import opened Wrappers
  import opened Seqs
  import opened Text
  import opened Sessions

  class Session {
    const incidentId: string
    const agent: string
    var messages: seq<Message>
    var llmCalls: nat
    var compacted: nat
    var compactedHead: string
    var store: SessionStore?

    ghost function View(): Window
      reads this
    {
      Window(messages, compacted, compactedHead)
    }

    ghost function Entry(): (s: Saved)
      reads this`messages, this`llmCalls, this`compacted, this`compactedHead
      ensures s.llmCalls >= 0
    {
      Saved(incidentId, agent, messages, llmCalls, compacted, compactedHead)
    }

    constructor (incidentId: string, agent: string)
      ensures Entry() == Blank(incidentId, agent) && store == null
      ensures View() == Window([], 0, "") && llmCalls == 0
      ensures this.incidentId == incidentId && this.agent == agent
    {
      this.incidentId, this.agent := incidentId, agent;
      messages, llmCalls, compacted, compactedHead := [], 0, 0, "";
      store := null;
    }

    /** Append, then collapse the oldest messages into the counted marker. A store that holds the
        session keeps its balance and its proper entries. */
    method Append(role: string, content: string) returns (r: Result<(), SessionError>)
      modifies this`messages, this`compacted, this`compactedHead
      ensures match Appended(old(View()), role, content)
        case Ok(w) => r == Ok(()) && View() == w
        case Err(e) => r == Err(e) && View() == old(View())
      ensures store != null && old(store.Valid() && HeldBy(store)) ==> store.Valid()
      ensures store != null && old(store.Linked() && HeldBy(store) && Proper(store.Book())) ==> Proper(store.Book())
    {
      hide Appended, Balanced, WithinBudget, Distinct, Proper, Enforced, Reals;
      ghost var holding := store != null && store.Linked() && HeldBy(store) && Proper(store.Book());
      ghost var book := if store != null then store.Book() else map[];
      r := AppendMessage(role, content);
      if holding {
        store.EntryChanged(book, this);
      }
    }

    method AppendMessage(role: string, content: string) returns (r: Result<(), SessionError>)
      modifies this`messages, this`compacted, this`compactedHead
      ensures match Appended(old(View()), role, content)
        case Ok(w) => r == Ok(()) && View() == w
        case Err(e) => r == Err(e) && View() == old(View())
      ensures RolesOk(old(messages)) ==> RolesOk(messages)
    {
      if RolesOk(messages) && Appended(View(), role, content).Ok? {
        AppendedRoles(View(), role, content);
      }
      if !ValidRole(role) {
        return Err(BadRole);
      }
      if IsBlank(content) || |content| > MAX_CONTENT_CHARS {
        return Err(BadContent);
      }
      messages := messages + [Message(role, content)];
      while |Reals(messages)| > SESSION_WINDOW
        invariant Enforced(View()) == Enforced(old(View()).(messages := old(messages) + [Message(role, content)]))
        decreases |Reals(messages)|
      {
        CompactedReals(View());
        CompactOldest();
      }
      return Ok(());
    }

    method CompactOldest()
      requires Reals(messages) != []
      modifies this`messages, this`compacted, this`compactedHead
      ensures View() == Compacted(old(View()))
    {
      hide Reals, MarkerFor, Snippet, IsMarker;
      var i := OldestReal(messages);
      var oldest := messages[i];
      messages := messages[..i] + messages[i + 1..];
      compacted := compacted + 1;
      if compactedHead == "" {
        compactedHead := Snippet(oldest.content);
      }
      var marker := MarkerFor(compacted, compactedHead);
      if messages != [] && IsMarker(messages[0]) {
        messages := messages[0 := marker];
      } else {
        messages := [marker] + messages;
      }
    }

    /** Write one entry of a file into this session. */
    method Fill(x: Saved) returns (e: Option<SessionError>)
      modifies this`messages, this`llmCalls, this`compacted, this`compactedHead
      ensures (Entry(), e) == Filled(old(Entry()), x)
    {
      messages := x.messages;
      if exists i :: 0 <= i < |x.messages| && !ValidRole(x.messages[i].role) {
        return Some(BadRole);
      }
      if x.llmCalls < 0 || x.compacted < 0 {
        return Some(NegativeCounter);
      }
      llmCalls := x.llmCalls;
      compacted := x.compacted;
      compactedHead := x.head;
      return None;
    }

    /** The session the store hands out for this incident and agent. */
    ghost predicate HeldBy(s: SessionStore)
      reads s
    {
      (incidentId, agent) in s.sessions && s.sessions[(incidentId, agent)] == this
    }

    /** Count one call, all or nothing: once the incident has room, neither the session's own
        limit nor the second look at the aggregate can fail. */
    method RecordCall() returns (r: Result<nat, SessionError>)
      requires store != null ==> store.Valid() && HeldBy(store)
      modifies this`llmCalls, (if store == null then {} else {store})`incidentCalls
      ensures store != null ==> store.Valid()
      ensures r.Ok? <==>
        (if store != null then Calls(old(store.incidentCalls), incidentId) else old(llmCalls)) < MAX_LLM_CALLS_PER_INCIDENT
      ensures r.Ok? ==> r.value == llmCalls == old(llmCalls) + 1
      ensures r.Ok? && store != null ==>
        store.incidentCalls == old(store.incidentCalls)[incidentId := Calls(old(store.incidentCalls), incidentId) + 1]
      ensures r.Err? ==> r.error == BudgetExceeded && llmCalls == old(llmCalls)
      ensures r.Err? && store != null ==> store.incidentCalls == old(store.incidentCalls)
      ensures store != null && old(Proper(store.Book())) ==> Proper(store.Book())
    {
      hide Proper, Calls, SessionStore.Valid, SessionStore.Book;
      if store != null {
        var room := store.PreCall(incidentId);
        if !room {
          return Err(BudgetExceeded);
        }
        store.RoomAbove(this);
      }
      if llmCalls >= MAX_LLM_CALLS_PER_INCIDENT {
        assert store == null;
        return Err(BudgetExceeded);
      }
      Count();
      return Ok(llmCalls);
    }

    /** Both counters move. */
    method Count()
      requires store != null ==>
        store.Valid() && HeldBy(store) && Calls(store.incidentCalls, incidentId) < MAX_LLM_CALLS_PER_INCIDENT
      modifies this`llmCalls, (if store == null then {} else {store})`incidentCalls
      ensures llmCalls == old(llmCalls) + 1 && (store != null ==> store.Valid())
      ensures store != null ==>
        store.incidentCalls == old(store.incidentCalls)[incidentId := Calls(old(store.incidentCalls), incidentId) + 1]
      ensures store != null && old(Proper(store.Book())) ==> Proper(store.Book())
    {
      hide Proper, WithinBudget, Distinct, Balanced, Calls;
      ghost var before := if store != null then store.Ledger() else map[];
      ghost var calls := if store != null then store.incidentCalls else map[];
      ghost var book := if store != null then store.Book() else map[];
      llmCalls := llmCalls + 1;
      if store != null {
        var noted := store.NoteCall(incidentId);
        assert noted;
        store.CallCounted(before, book, calls, this);
      }
    }
  }

  class SessionStore {
    var sessions: map<Key, Session>
    /** The insertion order of the dictionary. */
    var order: seq<Key>
    var incidentCalls: map<string, nat>

    ghost function Ledger(): map<Key, nat>
      reads this`sessions, sessions.Values`llmCalls
    {
      map k | k in sessions :: sessions[k].llmCalls
    }

    ghost function Book(): (b: Book)
      reads this`sessions
      reads sessions.Values`messages, sessions.Values`llmCalls, sessions.Values`compacted, sessions.Values`compactedHead
      ensures Counted(b)
    {
      map k | k in sessions :: sessions[k].Entry()
    }

    /** Each session sits under its own name and points back to this store. */
    ghost predicate Linked()
      reads this`sessions, this`order, sessions.Values`store
    {
      && Distinct(order) && (forall k :: k in order <==> k in sessions)
      && (forall k :: k in sessions ==>
            sessions[k].incidentId == k.0 && sessions[k].agent == k.1 && sessions[k].store == this)
    }

    ghost predicate Valid()
      reads this, sessions.Values
    {
      Linked() && Balanced(Ledger(), incidentCalls) && WithinBudget(incidentCalls)
    }

    lemma LedgerIsSpent()
      ensures Ledger() == Spent(Book()) && Book().Keys == sessions.Keys
    {
    }

    /** No session has made more calls than its incident. */
    lemma RoomAbove(session: Session)
      requires Valid() && session.HeldBy(this)
      ensures session.llmCalls <= Calls(incidentCalls, session.incidentId)
    {
      hide Balanced, WithinBudget, Distinct, Calls;
      SessionBelowCalls(Ledger(), incidentCalls, (session.incidentId, session.agent));
    }

    /** One more call of this session, counted on both sides. */
    lemma CallCounted(before: map<Key, nat>, book: Book, calls: map<string, nat>, session: Session)
      requires Linked() && session.HeldBy(this) && before.Keys == sessions.Keys == book.Keys
      requires Balanced(before, calls) && WithinBudget(calls)
      requires Calls(calls, session.incidentId) < MAX_LLM_CALLS_PER_INCIDENT
      requires incidentCalls == calls[session.incidentId := Calls(calls, session.incidentId) + 1]
      requires forall j :: j in sessions ==>
        if sessions[j] == session then session.llmCalls == before[j] + 1 && session.Entry() == book[j].(llmCalls := session.llmCalls)
        else sessions[j].llmCalls == before[j] && sessions[j].Entry() == book[j]
      ensures Valid() && (Proper(book) ==> Proper(Book()))
    {
      hide Proper, WithinBudget, Distinct, Balanced, Calls, IsBlank, RolesOk;
      OneMoreCall(before, calls, (session.incidentId, session.agent));
      if Proper(book) {
        EntryChanged(book, session);
      }
    }

    /** Only the entry of one session has changed, and its roles are still known. */
    lemma EntryChanged(b: Book, session: Session)
      requires Linked() && session.HeldBy(this) && Proper(b) && b.Keys == sessions.Keys
      requires forall k :: k in sessions && sessions[k] != session ==> b[k] == sessions[k].Entry()
      requires RolesOk(b[(session.incidentId, session.agent)].messages) ==> RolesOk(session.messages)
      ensures Proper(Book())
    {
      hide IsBlank, RolesOk;
      forall k | k in sessions ensures ProperEntry(k, Book()[k]) {
        assert ProperEntry(k, b[k]);
      }
    }

    lemma BookIsNamed()
      requires Linked()
      ensures Named(Book())
    {
    }

    constructor ()
      ensures Valid() && sessions == map[] && order == [] && Book() == map[] && incidentCalls == map[]
      ensures Proper(Book())
    {
      sessions, order, incidentCalls := map[], [], map[];
      new;
      EmptyBalance();
      assert Ledger() == map[];
    }

    method PreCall(incidentId: string) returns (room: bool)
      ensures room <==> Calls(incidentCalls, incidentId) < MAX_LLM_CALLS_PER_INCIDENT
    {
      room := !(Calls(incidentCalls, incidentId) >= MAX_LLM_CALLS_PER_INCIDENT);
    }

    method NoteCall(incidentId: string) returns (noted: bool)
      modifies this`incidentCalls
      ensures noted <==> Calls(old(incidentCalls), incidentId) < MAX_LLM_CALLS_PER_INCIDENT
      ensures incidentCalls == if noted then old(incidentCalls)[incidentId := Calls(old(incidentCalls), incidentId) + 1]
                               else old(incidentCalls)
    {
      var total := Calls(incidentCalls, incidentId) + 1;
      if total > MAX_LLM_CALLS_PER_INCIDENT {
        return false;
      }
      incidentCalls := incidentCalls[incidentId := total];
      return true;
    }

    lemma OneMoreCall(before: map<Key, nat>, calls: map<string, nat>, k: Key)
      requires Linked() && k in before && before.Keys == sessions.Keys
      requires Balanced(before, calls) && WithinBudget(calls) && Calls(calls, k.0) < MAX_LLM_CALLS_PER_INCIDENT
      requires incidentCalls == calls[k.0 := Calls(calls, k.0) + 1]
      requires forall j :: j in sessions ==> sessions[j].llmCalls == before[j] + if j == k then 1 else 0
      ensures Valid()
    {
      assert Ledger() == before[k := before[k] + 1];
      hide Balanced, WithinBudget;
      CallKeepsBalance(before, calls, k);
      RoomStaysWithin(calls, k.0);
    }

    method Create(incidentId: string, agent: string)
      requires Linked() && (incidentId, agent) !in sessions
      modifies this`sessions, this`order
      ensures Linked() && (incidentId, agent) in sessions && fresh(sessions[(incidentId, agent)])
      ensures sessions == old(sessions)[(incidentId, agent) := sessions[(incidentId, agent)]]
      ensures Book() == old(Book())[(incidentId, agent) := Blank(incidentId, agent)]
    {
      hide Distinct, Counted;
      var session := new Session(incidentId, agent);
      session.store := this;
      Attach(session);
    }

    method Attach(session: Session)
      requires Linked() && session.store == this && (session.incidentId, session.agent) !in sessions
      modifies this`sessions, this`order
      ensures Linked() && sessions == old(sessions)[(session.incidentId, session.agent) := session]
      ensures Book() == old(Book())[(session.incidentId, session.agent) := session.Entry()]
    {
      hide Distinct, Counted;
      var key := (session.incidentId, session.agent);
      DistinctAppend(order, key);
      sessions := sessions[key := session];
      order := order + [key];
    }

    lemma TouchKeepsBalance(b: Book, calls: map<string, nat>, incidentId: string, agent: string)
      requires Counted(b) && Balanced(Spent(b), calls) && Book() == Touched(b, incidentId, agent)
      ensures Balanced(Ledger(), calls)
    {
      hide Balanced, SessionStore.Book, SessionStore.Ledger;
      TouchedKeepsBalance(b, calls, incidentId, agent);
      LedgerIsSpent();
    }

    method GetOrCreate(incidentId: string, agent: string) returns (r: Result<Session, SessionError>)
      requires Linked()
      modifies this`sessions, this`order, sessions.Values`store
      ensures Linked() && incidentCalls == old(incidentCalls)
      ensures r.Ok? <==> !IsBlank(incidentId) && agent in AGENTS
      ensures r.Err? ==> r.error == if IsBlank(incidentId) then BadIncident else UnknownAgent
      ensures r.Err? ==> sessions == old(sessions) && order == old(order)
      ensures r.Ok? ==> r.value.HeldBy(this) && r.value.incidentId == incidentId && r.value.agent == agent
      ensures r.Ok? ==> sessions == old(sessions)[(incidentId, agent) := r.value]
      ensures r.Ok? ==>
        if (incidentId, agent) in old(sessions) then r.value == old(sessions)[(incidentId, agent)] else fresh(r.value)
      ensures Book() == if r.Ok? then Touched(old(Book()), incidentId, agent) else old(Book())
      ensures Balanced(old(Ledger()), incidentCalls) ==> Balanced(Ledger(), incidentCalls)
      ensures Proper(old(Book())) ==> Proper(Book())
    {
      hide IsBlank, Balanced, Spent, Proper;
      ghost var book, ledger := Book(), Ledger();
      LedgerIsSpent();
      if IsBlank(incidentId) {
        return Err(BadIncident);
      }
      if agent !in AGENTS {
        return Err(UnknownAgent);
      }
      var key := (incidentId, agent);
      if key !in sessions {
        Create(incidentId, agent);
      }
      var session := sessions[key];
      session.store := this;
      if Balanced(ledger, incidentCalls) {
        TouchKeepsBalance(book, incidentCalls, incidentId, agent);
      }
      if Proper(book) {
        TouchedProper(book, incidentId, agent);
      }
      return Ok(session);
    }

    method SaveJson() returns (blob: seq<Saved>)
      requires Linked()
      ensures blob == SaveAll(order, Book())
    {
      blob := [];
      var i := 0;
      while i < |order|
        invariant 0 <= i <= |order| && blob == SaveAll(order[..i], Book())
      {
        var s := sessions[order[i]];
        assert order[..i + 1][..i] == order[..i];
        blob := blob + [Saved(s.incidentId, s.agent, s.messages, s.llmCalls, s.compacted, s.compactedHead)];
        i := i + 1;
      }
      assert order[..i] == order;
    }

    /** One entry of the file. */
    method LoadEntry(x: Saved) returns (e: Option<SessionError>)
      requires Linked()
      modifies this`sessions, this`order, sessions.Values
      ensures Linked() && incidentCalls == old(incidentCalls)
      ensures Book() == LoadItem(old(Book()), x).0 && e == LoadItem(old(Book()), x).1
      ensures forall k :: k in sessions ==> sessions[k] in old(sessions.Values) || fresh(sessions[k])
    {
      hide IsBlank, Filled, Distinct, LoadItem, Touched;
      LoadItemCases(Book(), x);
      var got := GetOrCreate(x.incidentId, x.agent);
      if got.Err? {
        return Some(got.error);
      }
      var session := got.value;
      e := FillHeld(session, x);
    }

    /** Only the entry of the session written to changes. */
    method FillHeld(session: Session, x: Saved) returns (e: Option<SessionError>)
      requires Linked() && session.HeldBy(this)
      modifies session
      ensures Linked() && session.store == this
      ensures var k, b := (session.incidentId, session.agent), old(Book());
        k in b && Book() == b[k := Filled(b[k], x).0] && e == Filled(b[k], x).1
    {
      hide Filled, Distinct;
      e := session.Fill(x);
      if e.None? {
        session.store := this;
      }
    }

    /** The aggregates, counted again from the sessions. */
    method Recount()
      requires Linked()
      modifies this`incidentCalls
      ensures Linked() && Balanced(Ledger(), incidentCalls)
    {
      hide Balanced, Calls, CountedPart, Distinct;
      incidentCalls := map[];
      EmptyBalance();
      ghost var ledger := Ledger();
      WholePart(ledger, order);
      ghost var counted: map<Key, nat> := map[];
      var i := 0;
      while i < |order|
        invariant 0 <= i <= |order|
        invariant counted == CountedPart(ledger, order[..i])
        invariant Balanced(counted, incidentCalls)
      {
        var k := order[i];
        PartGrowsBy(ledger, order, i);
        EntryKeepsBalance(counted, incidentCalls, k, ledger[k]);
        counted := counted[k := ledger[k]];
        incidentCalls := incidentCalls[k.0 := Calls(incidentCalls, k.0) + sessions[k].llmCalls];
        i := i + 1;
      }
      assert order[..i] == order;
    }

    /** Load a file over what the store holds. Success re-establishes the budgets; an entry
        error leaves the entries read so far and the old aggregates; a file over budget leaves
        balanced books that are over budget. */
    method LoadJson(items: seq<Saved>) returns (r: Result<nat, SessionError>)
      requires Linked()
      modifies this, sessions.Values
      ensures Linked()
      ensures Book() == LoadItems(old(Book()), items).0
      ensures r.Ok? ==> Valid() && r.value == |items|
      ensures LoadItems(old(Book()), items).1.Some? ==>
        r == Err(LoadItems(old(Book()), items).1.value) && incidentCalls == old(incidentCalls)
      ensures LoadItems(old(Book()), items).1.None? ==>
        Balanced(Ledger(), incidentCalls) && (r.Ok? <==> WithinBudget(incidentCalls)) && (r.Err? ==> r.error == BudgetExceeded)
      ensures r.Ok? && Proper(old(Book())) ==> Proper(Book())
    {
      hide SessionStore.Ledger, SessionStore.Book, Balanced, WithinBudget, LoadItems, Proper;
      ghost var book := Book();
      if Proper(book) && LoadItems(book, items).1.None? {
        LoadItemsProper(book, items);
      }
      var count, e := LoadEntries(items);
      if e.Some? {
        return Err(e.value);
      }
      Recount();
      var fits := WithinLimits();
      if !fits {
        return Err(BudgetExceeded);
      }
      return Ok(count);
    }

    method LoadEntries(items: seq<Saved>) returns (count: nat, e: Option<SessionError>)
      requires Linked()
      modifies this`sessions, this`order, sessions.Values
      ensures Linked() && Book() == LoadItems(old(Book()), items).0 && e == LoadItems(old(Book()), items).1
      ensures e.None? ==> count == |items|
    {
      hide SessionStore.Ledger, SessionStore.Book, LoadItem;
      count, e := 0, None;
      while count < |items|
        invariant 0 <= count <= |items| && Linked() && e.None?
        invariant LoadItems(old(Book()), items[..count]) == (Book(), None)
        invariant forall k :: k in sessions ==> sessions[k] in old(sessions.Values) || fresh(sessions[k])
      {
        assert items[..count + 1][..count] == items[..count];
        e := LoadEntry(items[count]);
        if e.Some? {
          LoadStops(old(Book()), items, count + 1);
          return;
        }
        count := count + 1;
      }
      assert items[..count] == items;
    }

    /** The two budget checks after a load, per session and per incident. */
    method WithinLimits() returns (fits: bool)
      requires Linked() && Balanced(Ledger(), incidentCalls)
      ensures fits <==> WithinBudget(incidentCalls)
    {
      hide Balanced, WithinBudget, Calls, Distinct;
      if k :| k in sessions && sessions[k].llmCalls > MAX_LLM_CALLS_PER_INCIDENT {
        OverBudget(Ledger(), incidentCalls, k);
        return false;
      }
      WithinExactly(incidentCalls);
      fits := forall i :: i in incidentCalls ==> incidentCalls[i] <= MAX_LLM_CALLS_PER_INCIDENT;
    }
  }

  ghost function CountedPart(ledger: map<Key, nat>, keys: seq<Key>): map<Key, nat> {
    map k | k in keys && k in ledger :: ledger[k]
  }

  lemma WholePart(ledger: map<Key, nat>, keys: seq<Key>)
    requires forall k :: k in keys <==> k in ledger
    ensures CountedPart(ledger, keys) == ledger && CountedPart(ledger, keys[..0]) == map[]
  {
  }

  lemma PartGrowsBy(ledger: map<Key, nat>, keys: seq<Key>, i: nat)
    requires i < |keys| && Distinct(keys) && keys[i] in ledger
    ensures var k := keys[i];
      CountedPart(ledger, keys[..i + 1]) == CountedPart(ledger, keys[..i])[k := ledger[k]]
      && k !in CountedPart(ledger, keys[..i])
  {
    assert keys[..i + 1] == keys[..i] + [keys[i]];
  }

  /** The first entry error is the answer for the whole file. */
  lemma {:induction false} LoadStops(b: Book, items: seq<Saved>, n: nat)
    requires n <= |items| && LoadItems(b, items[..n]).1.Some?
    ensures LoadItems(b, items) == LoadItems(b, items[..n])
    decreases |items| - n
  {
    if n < |items| {
      assert items[..n + 1][..n] == items[..n];
      LoadStops(b, items, n + 1);
    } else {
      assert items[..n] == items;
    }
  }

  /** Save and load into a fresh store: exactly if every entry is proper, the load succeeds, and
      the sessions and aggregates of the original come back. */
  method Resume(original: SessionStore) returns (copy: SessionStore, r: Result<nat, SessionError>)
    requires original.Valid()
    ensures r.Ok? <==> Proper(original.Book())
    ensures fresh(copy) && copy.Linked()
    ensures r.Ok? ==> copy.Valid() && copy.Book() == original.Book()
    ensures r.Ok? ==> forall i :: Calls(copy.incidentCalls, i) == Calls(original.incidentCalls, i)
  {
    hide Proper, Balanced, WithinBudget, LoadItems, SaveAll, Distinct, Calls, Spent, Named;
    hide SessionStore.Ledger, SessionStore.Book;
    ghost var book, ledger := original.Book(), original.Ledger();
    original.LedgerIsSpent();
    original.BookIsNamed();
    var blob := original.SaveJson();
    SaveLoadsBackExactly(original.order, book);
    copy := new SessionStore();
    r := copy.LoadJson(blob);
    if Proper(book) {
      copy.LedgerIsSpent();
      BalanceSettles(ledger, original.incidentCalls, copy.incidentCalls);
    }
  }
}
