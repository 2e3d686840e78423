/** Single-use nonces (backend/app/services/approval.py): a set of burned nonces, their
    order of burning, and an append-only log file that is compacted past MAX_NONCES. */
module NonceStores {
  import opened Seqs
  import opened Text

  const MAX_NONCES: nat := 100000

  /** What the file system does during one burn. `AppendFails(written)`: opening, writing or
      syncing raised, and the line did or did not reach the disk. `NoTempFile`: the append
      worked and creating the compaction file raised. `ReplaceFails`: the compaction file was
      not moved into place, an error the source swallows. */
  datatype Io = IoOk | AppendFails(written: bool) | NoTempFile | ReplaceFails

  /** The store as a value. `log` is the content of the file, line by line. */
  datatype Store = Store(used: set<string>, order: seq<string>, persistent: bool,
                         degraded: bool, log: seq<string>)

  function KeepLast(order: seq<string>): seq<string> {
    if |order| <= MAX_NONCES then order else order[|order| - MAX_NONCES..]
  }

  /** Burning one nonce: was it fresh, and the store afterwards. */
  function Consume(s: Store, nonce: string, io: Io): (bool, Store) {
    if nonce in s.used then (false, s)
    else
      var t := s.(used := s.used + {nonce}, order := s.order + [nonce]);
      if !t.persistent then (true, t)
      else if io.AppendFails? then
        (true, t.(degraded := true, log := if io.written then t.log + [nonce] else t.log))
      else
        var u := t.(log := t.log + [nonce]);
        if |u.used| <= MAX_NONCES then (true, u)
        else
          var keep := KeepLast(u.order);
          var c := u.(used := Elements(keep), order := keep);
          (true, match io
            case IoOk => c.(log := keep)
            case NoTempFile => c.(degraded := true)
            case _ => c)
  }

  /** The nonces of a log in order of first occurrence, blank lines skipped. */
  function Reading(lines: seq<string>): seq<string> {
    if lines == [] then []
    else
      var before, nonce := Reading(lines[..|lines| - 1]), Strip(lines[|lines| - 1]);
      if nonce == "" || nonce in before then before else before + [nonce]
  }

  /** A new process over the file: everything readable is burned again; an unreadable file
      leaves a memory-only store that says so. */
  function Reopen(log: seq<string>, readable: bool): Store {
    if readable then
      Store(Elements(Reading(log)), Reading(log), true, false, log)
    else Store({}, [], false, true, log)
  }

  const IN_MEMORY: Store := Store({}, [], false, false, [])

  ghost predicate Valid(s: Store) {
    Distinct(s.order) && s.used == Elements(s.order)
  }

  /** The file tells the same story as memory. */
  ghost predicate LogAgrees(s: Store) {
    s.persistent && Reading(s.log) == s.order
  }

  lemma {:induction false} ReadingDistinct(lines: seq<string>)
    ensures Distinct(Reading(lines))
  {
    if lines != [] {
      ReadingDistinct(lines[..|lines| - 1]);
    }
  }

  /** A log of distinct unpadded nonces reads back as it is. */
  lemma {:induction false} ReadingExact(lines: seq<string>)
    requires Distinct(lines) && forall n :: n in lines ==> IsUnpadded(n)
    ensures Reading(lines) == lines
  {
    if lines != [] {
      var init, last := lines[..|lines| - 1], lines[|lines| - 1];
      ReadingExact(init);
      StripUnpadded(last);
      assert last !in init;
      assert lines == init + [last];
    }
  }

  /** Both the burn and the restart keep `used` the set of a repetition-free `order`,
      whatever the file system does. */
  lemma ConsumeKeepsValid(s: Store, nonce: string, io: Io)
    requires Valid(s)
    ensures Valid(Consume(s, nonce, io).1)
    ensures Consume(s, nonce, io).0 <==> nonce !in s.used
    ensures nonce in Consume(s, nonce, io).1.used
    ensures nonce in s.used ==> Consume(s, nonce, io).1 == s
  {
    if nonce !in s.used {
      var order := s.order + [nonce];
      assert Elements(order) == s.used + {nonce};
      DistinctLength(order);
      var keep := KeepLast(order);
      SuffixDistinct(keep, order);
      assert keep[|keep| - 1] == nonce;
    }
  }

  /** What a first burn of a file-backed store leaves in memory and on disk. */
  lemma ConsumeShape(s: Store, nonce: string, io: Io)
    requires Valid(s) && s.persistent && nonce !in s.used && !io.AppendFails?
    ensures var t := Consume(s, nonce, io).1;
      && t.persistent && t.order == KeepLast(s.order + [nonce]) && t.used == Elements(t.order)
      && (t.log == s.log + [nonce] || t.log == t.order)
  {
    assert Elements(s.order + [nonce]) == s.used + {nonce};
    DistinctLength(s.order + [nonce]);
  }

  lemma ReopenValid(log: seq<string>, readable: bool)
    ensures Valid(Reopen(log, readable))
  {
    ReadingDistinct(log);
  }

  /** What a process knows when it starts: every nonce that stands in a line of the log, or nothing,
      and that flagged, when the log cannot be read. */
  lemma ReopenExactly(log: seq<string>, readable: bool, nonce: string)
    ensures var s := Reopen(log, readable);
      && s.persistent == readable && s.degraded == !readable
      && (nonce in s.used <==> readable && nonce != "" && exists i :: 0 <= i < |log| && Strip(log[i]) == nonce)
  {
    InReading(log, nonce);
  }

  lemma {:induction false} InReading(lines: seq<string>, nonce: string)
    ensures nonce in Reading(lines) <==> nonce != "" && exists i :: 0 <= i < |lines| && Strip(lines[i]) == nonce
  {
    hide Strip;
    if lines != [] {
      var init := lines[..|lines| - 1];
      InReading(init, nonce);
      assert lines == init + [lines[|lines| - 1]];
      if i :| 0 <= i < |init| && Strip(init[i]) == nonce {
        assert lines[i] == init[i];
      }
    }
  }

  /** A burn with a working append: the newest MAX_NONCES stay in memory. The log is cut to them only
      when the replacement works, and a failure is flagged only when there is no temporary file. */
  lemma CompactionExactly(s: Store, nonce: string, io: Io)
    requires Valid(s) && s.persistent && nonce !in s.used && !io.AppendFails?
    ensures var t, all := Consume(s, nonce, io).1, s.order + [nonce];
      var full := |all| > MAX_NONCES;
      && t.order == (if full then all[|all| - MAX_NONCES..] else all)
      && t.log == (if full && io == IoOk then t.order else s.log + [nonce])
      && t.degraded == (s.degraded || (full && io == NoTempFile))
  {
    assert Elements(s.order + [nonce]) == s.used + {nonce};
    DistinctLength(s.order + [nonce]);
  }

  /** With working I/O the file keeps telling the same story, eviction included, so a
      restart after the burn finds exactly the nonces that were in memory. */
  lemma ConsumeKeepsLog(s: Store, nonce: string)
    requires Valid(s) && LogAgrees(s) && IsUnpadded(nonce)
    requires forall n :: n in s.order ==> IsUnpadded(n)
    ensures var t := Consume(s, nonce, IoOk).1;
      LogAgrees(t) && (forall n :: n in t.order ==> IsUnpadded(n)) && Reopen(t.log, true) == t.(degraded := false)
  {
    ConsumeKeepsValid(s, nonce, IoOk);
    var t := Consume(s, nonce, IoOk).1;
    if nonce !in s.used {
      StripUnpadded(nonce);
      assert (s.log + [nonce])[..|s.log|] == s.log;
      assert Reading(s.log + [nonce]) == s.order + [nonce];
      if |s.used + {nonce}| > MAX_NONCES {
        ReadingExact(t.log);
      }
    }
    assert t.used == Elements(t.order);
  }

  /** A burn whose append fails is flagged, and the next restart refuses the nonce exactly when
      the line had reached the disk after all. */
  lemma FailedAppendExactly(s: Store, nonce: string, written: bool)
    requires Valid(s) && LogAgrees(s) && IsUnpadded(nonce) && nonce !in s.used
    ensures var t := Consume(s, nonce, AppendFails(written)).1;
      t.degraded && (!Consume(Reopen(t.log, true), nonce, IoOk).0 <==> written)
  {
    StripUnpadded(nonce);
    assert (s.log + [nonce])[..|s.log|] == s.log;
    assert Reading(s.log + [nonce]) == s.order + [nonce];
  }

  function BurnAll(s: Store, burns: seq<(string, Io)>): Store {
    if burns == [] then s
    else Consume(BurnAll(s, burns[..|burns| - 1]), burns[|burns| - 1].0, burns[|burns| - 1].1).1
  }

  /** A store that is not file-backed never forgets: after any burns, whatever the file system
      does, exactly the nonces it knew before and those burned since are refused. */
  lemma {:induction false} InMemoryNeverEvicts(s: Store, burns: seq<(string, Io)>, n: string, io: Io)
    requires !s.persistent
    ensures !BurnAll(s, burns).persistent
    ensures !Consume(BurnAll(s, burns), n, io).0 <==> n in s.used || exists i :: 0 <= i < |burns| && burns[i].0 == n
  {
    if burns != [] {
      InMemoryNeverEvicts(s, burns[..|burns| - 1], n, io);
      if i :| 0 <= i < |burns| && burns[i].0 == n && i < |burns| - 1 {
        assert burns[..|burns| - 1][i].0 == n;
      }
    }
  }

  // ------------------------------------------------ how long a burn is remembered

  datatype Op = Burn(nonce: string) | Restart

  function Apply(s: Store, op: Op): Store {
    match op
    case Burn(n) => Consume(s, n, IoOk).1
    case Restart => Reopen(s.log, true)
  }

  function Run(s: Store, ops: seq<Op>): Store
    decreases |ops|
  {
    if ops == [] then s else Run(Apply(s, ops[0]), ops[1..])
  }

  function Fresh(s: Store, op: Op): nat {
    if op.Burn? && op.nonce !in s.used then 1 else 0
  }

  /** How many of the operations are fresh burns. */
  function FreshBurns(s: Store, ops: seq<Op>): nat
    decreases |ops|
  {
    if ops == [] then 0
    else Fresh(s, ops[0]) + FreshBurns(Apply(s, ops[0]), ops[1..])
  }

  ghost predicate Sound(s: Store) {
    Valid(s) && LogAgrees(s) && forall n :: n in s.order ==> IsUnpadded(n)
  }

  ghost predicate Others(ops: seq<Op>, nonce: string) {
    forall i :: 0 <= i < |ops| && ops[i].Burn? ==> IsUnpadded(ops[i].nonce) && ops[i].nonce != nonce
  }

  /** `nonce` is remembered and was followed by `age` burns, or is already forgotten. */
  ghost predicate HasAge(order: seq<string>, nonce: string, age: nat) {
    if age < MAX_NONCES then |order| > age && order[|order| - 1 - age] == nonce
    else nonce !in order
  }

  lemma AgeOneBurn(order: seq<string>, n: string, nonce: string, age: nat)
    requires Distinct(order + [n]) && HasAge(order, nonce, age) && n != nonce
    ensures HasAge(KeepLast(order + [n]), nonce, age + 1)
  {
    var longer := order + [n];
    var kept := KeepLast(longer);
    if age < MAX_NONCES {
      assert longer[|longer| - 2 - age] == nonce;
      if age + 1 < MAX_NONCES {
        assert kept[|kept| - 2 - age] == nonce;
      } else {
        forall i | 0 <= i < |kept| ensures kept[i] != nonce {
          assert kept[i] == longer[|longer| - |kept| + i];
        }
      }
    }
  }

  lemma AgeOneStep(s: Store, op: Op, nonce: string, age: nat)
    requires Sound(s) && HasAge(s.order, nonce, age)
    requires op.Burn? ==> IsUnpadded(op.nonce) && op.nonce != nonce
    ensures Sound(Apply(s, op))
    ensures HasAge(Apply(s, op).order, nonce, age + Fresh(s, op))
  {
    hide Reading, Consume;
    match op
    case Restart =>
      ReopenValid(s.log, true);
    case Burn(n) =>
      ConsumeKeepsValid(s, n, IoOk);
      ConsumeKeepsLog(s, n);
      if n !in s.used {
        ConsumeShape(s, n, IoOk);
        AgeOneBurn(s.order, n, nonce, age);
      }
  }

  lemma {:induction false} AgeAfterRun(s: Store, ops: seq<Op>, nonce: string, age: nat)
    requires Sound(s) && HasAge(s.order, nonce, age) && Others(ops, nonce)
    ensures Sound(Run(s, ops)) && HasAge(Run(s, ops).order, nonce, age + FreshBurns(s, ops))
    decreases |ops|
  {
    hide Sound, HasAge, Apply, Fresh;
    if ops != [] {
      AgeOneStep(s, ops[0], nonce, age);
      AgeAfterRun(Apply(s, ops[0]), ops[1..], nonce, age + Fresh(s, ops[0]));
    }
  }

  lemma AgeTells(s: Store, nonce: string, age: nat)
    requires Valid(s) && HasAge(s.order, nonce, age)
    ensures nonce in s.used <==> age < MAX_NONCES
  {
    if age < MAX_NONCES {
      assert s.order[|s.order| - 1 - age] == nonce;
    }
  }

  /** The exact memory of a file-backed store: after any mix of other burns and restarts, a
      burned nonce is refused if and only if fewer than MAX_NONCES fresh burns followed it. */
  lemma BurnRememberedExactly(s: Store, nonce: string, ops: seq<Op>)
    requires Sound(s) && IsUnpadded(nonce) && nonce !in s.used && Others(ops, nonce)
    ensures var burned := Consume(s, nonce, IoOk).1;
      (!Consume(Run(burned, ops), nonce, IoOk).0) <==> FreshBurns(burned, ops) < MAX_NONCES
  {
    hide Reading, Consume;
    var burned := Consume(s, nonce, IoOk).1;
    ConsumeKeepsValid(s, nonce, IoOk);
    ConsumeKeepsLog(s, nonce);
    ConsumeShape(s, nonce, IoOk);
    AgeAfterRun(burned, ops, nonce, 0);
    AgeTells(Run(burned, ops), nonce, FreshBurns(burned, ops));
    ConsumeKeepsValid(Run(burned, ops), nonce, IoOk);
  }

  // ------------------------------------------------ the class

  /** The durable file; it outlives the process. */
  class LogFile {
    var lines: seq<string>

    constructor ()
      ensures lines == []
    {
      lines := [];
    }
  }

  class NonceStore {
    var used: set<string>
    var order: seq<string>
    var degraded: bool
    var persistent: bool
    const file: LogFile

    ghost function State(): Store
      reads this, file
    {
      Store(used, order, persistent, degraded, file.lines)
    }

    constructor (file: LogFile, readable: bool)
      ensures this.file == file && State() == Reopen(file.lines, readable)
    {
      this.file := file;
      used, order := {}, [];
      persistent, degraded := readable, !readable;
      new;
      if readable {
        var i := 0;
        while i < |file.lines|
          invariant 0 <= i <= |file.lines|
          invariant persistent && !degraded && file.lines == old(file.lines)
          invariant order == Reading(file.lines[..i]) && used == Elements(order)
        {
          var nonce := Strip(file.lines[i]);
          assert file.lines[..i + 1][..i] == file.lines[..i];
          if nonce != "" && nonce !in used {
            used := used + {nonce};
            order := order + [nonce];
          }
          i := i + 1;
        }
        assert file.lines[..i] == file.lines;
      }
    }

    /** Burn under the lock: refuse a known nonce, otherwise remember it and append it. */
    method Burn(nonce: string, io: Io) returns (accepted: bool)
      modifies this, file
      ensures (accepted, State()) == Consume(old(State()), nonce, io)
      ensures accepted <==> nonce !in old(used)
    {
      if nonce in used {
        return false;
      }
      used := used + {nonce};
      order := order + [nonce];
      if persistent {
        if io.AppendFails? {
          if io.written {
            file.lines := file.lines + [nonce];
          }
          degraded := true;
        } else {
          file.lines := file.lines + [nonce];
          if |used| > MAX_NONCES {
            Compact(io);
          }
        }
      }
      return true;
    }

    /** Evict oldest-first. Memory shrinks before the file is replaced. */
    method Compact(io: Io)
      requires persistent
      modifies this, file
      ensures persistent && order == KeepLast(old(order)) && used == Elements(order)
      ensures file.lines == if io == IoOk then order else old(file.lines)
      ensures degraded == (old(degraded) || io == NoTempFile)
    {
      var keep := if |order| > MAX_NONCES then order[|order| - MAX_NONCES..] else order;
      used := Elements(keep);
      order := keep;
      if io == NoTempFile {
        degraded := true;
        return;
      }
      if io == IoOk {
        file.lines := keep;
      }
    }

    /** Forget every burn, in memory and, unless removing it fails, in the file. */
    method Clear(removed: bool)
      modifies this, file
      ensures State() == Store({}, [], old(persistent), old(degraded),
                               if old(persistent) && removed then [] else old(file.lines))
    {
      used := {};
      order := [];
      if persistent && removed {
        file.lines := [];
      }
    }
  }
}
