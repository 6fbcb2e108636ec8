/** The table of address-space descriptors against the kernel's descriptors. */
module FdTable {

  const LIMIT: nat := 1024

  /** What fstat tells about a file: its device and inode. */
  datatype Identity = Identity(device: nat, inode: nat)

  datatype Entry = Entry(active: bool, id: Identity)

  const BLANK: Entry := Entry(false, Identity(0, 0))

  /** An open descriptor of the kernel. `goldfish` says that it descends from an open of the address-space
      device, and `chain` lists the descriptors it was duplicated through, its own one last. */
  datatype File = File(id: Identity, goldfish: bool, chain: seq<nat>)

  /** `created` holds the identities of all address-space opens so far. */
  datatype State = State(table: seq<Entry>, files: map<nat, File>, created: set<Identity>)

  predicate Sized(s: State) { |s.table| == LIMIT }

  // ---------- the table's own operations ----------

  function Cleared(t: seq<Entry>, fd: int): (r: seq<Entry>)
    ensures |r| == |t|
  {
    if 0 <= fd < |t| then t[fd := BLANK] else t
  }

  function Tracked(t: seq<Entry>, fd: int, files: map<nat, File>): (r: seq<Entry>)
    ensures |r| == |t|
  {
    if 0 <= fd < |t| && fd in files then t[fd := Entry(true, files[fd].id)] else t
  }

  /** is_address_space_fd's answer. */
  predicate Answer(t: seq<Entry>, fd: int, files: map<nat, File>) {
    0 <= fd < |t| && t[fd].active && fd in files && files[fd].id == t[fd].id
  }

  /** The table after is_address_space_fd: an entry that no longer fits is cleared. */
  function Checked(t: seq<Entry>, fd: int, files: map<nat, File>): (r: seq<Entry>)
    ensures |r| == |t|
  {
    if 0 <= fd < |t| && t[fd].active && !Answer(t, fd, files) then Cleared(t, fd) else t
  }

  function Duplicated(t: seq<Entry>, old_: int, new_: int, files: map<nat, File>): (r: seq<Entry>)
    ensures |r| == |t|
  {
    if old_ == new_ then t
    else
      var t1 := Cleared(t, new_);
      if !(0 <= new_ < |t|) then t1
      else
        var t2 := Checked(t1, old_, files);
        if Answer(t1, old_, files) then t2[new_ := t2[old_]] else t2
  }

  // ---------- the wrappers ----------

  function OpenGoldfish(s: State, fd: nat, id: Identity): State {
    var files := s.files[fd := File(id, true, [fd])];
    State(Tracked(s.table, fd, files), files, s.created + {id})
  }

  function OpenOther(s: State, fd: nat, id: Identity): State {
    s.(files := s.files[fd := File(id, false, [fd])])
  }

  /** The kernel refuses to close what is not open, and the table is then left alone. */
  function Close(s: State, fd: int): State {
    if fd in s.files then s.(files := s.files - {fd}, table := Cleared(s.table, fd)) else s
  }

  predicate CloExec(flags: nat) { flags / 4 % 2 == 1 }

  function WithoutRange(files: map<nat, File>, first: nat, last: nat): map<nat, File> {
    map fd | fd in files && !(first <= fd <= last) :: files[fd]
  }

  function BlankRange(t: seq<Entry>, first: nat, end: nat): (r: seq<Entry>)
    ensures |r| == |t|
  {
    seq(|t|, i requires 0 <= i < |t| => if first <= i < end then BLANK else t[i])
  }

  /** close_range that the kernel accepted. */
  function CloseRange(s: State, first: nat, last: nat, flags: nat): State {
    if CloExec(flags) then s
    else s.(files := WithoutRange(s.files, first, last), table := BlankRange(s.table, first, last + 1))
  }

  /** What the kernel does in dup, dup2, dup3 and fcntl, once it has settled on `new_`. */
  function CopyFile(files: map<nat, File>, old_: nat, new_: nat): map<nat, File>
    requires old_ in files
  {
    if old_ == new_ then files else files[new_ := files[old_].(chain := files[old_].chain + [new_])]
  }

  function Dup(s: State, old_: nat, new_: nat): State
    requires old_ in s.files
  {
    var files := CopyFile(s.files, old_, new_);
    s.(files := files, table := Duplicated(s.table, old_, new_, files))
  }

  // ---------- the invariant: the table is a function of the kernel's descriptors ----------

  predicate Low(chain: seq<nat>) { forall i :: 0 <= i < |chain| ==> chain[i] < LIMIT }

  /** A descriptor the table should know. */
  predicate Known(f: File) { f.goldfish && Low(f.chain) }

  predicate EntryOk(s: State, fd: nat)
    requires Sized(s) && fd < LIMIT
  {
    s.table[fd] == if fd in s.files && Known(s.files[fd]) then Entry(true, s.files[fd].id) else BLANK
  }

  ghost predicate Inv(s: State) {
    && Sized(s)
    && (forall fd {:trigger EntryOk(s, fd)} :: 0 <= fd < LIMIT ==> EntryOk(s, fd))
    && (forall fd :: fd in s.files ==> s.files[fd].chain != [] && s.files[fd].chain[|s.files[fd].chain| - 1] == fd)
  }

  lemma DupKeeps(s: State, old_: nat, new_: nat)
    requires Inv(s) && old_ in s.files
    ensures Inv(Dup(s, old_, new_))
  {
    var s' := Dup(s, old_, new_);
    if old_ < LIMIT {
      assert EntryOk(s, old_);
    }
    if old_ != new_ {
      ChainGrows(s.files[old_].chain, new_);
      var c := s.files[old_].chain;
      assert old_ >= LIMIT ==> !Low(c) by { assert c[|c| - 1] == old_; }
    }
    forall fd | 0 <= fd < LIMIT
      ensures EntryOk(s', fd)
    {
      assert EntryOk(s, fd);
    }
  }

  lemma ChainGrows(c: seq<nat>, n: nat)
    ensures Low(c + [n]) <==> Low(c) && n < LIMIT
  {
    var d := c + [n];
    assert d[|c|] == n && forall i :: 0 <= i < |c| ==> d[i] == c[i];
  }

  lemma CloseRangeKeeps(s: State, first: nat, last: nat, flags: nat)
    requires Inv(s)
    ensures Inv(CloseRange(s, first, last, flags))
  {
    var s' := CloseRange(s, first, last, flags);
    forall fd | 0 <= fd < LIMIT
      ensures EntryOk(s', fd)
    {
      assert EntryOk(s, fd);
    }
  }

  // ---------- whole runs ----------

  /** Calls through the wrappers; a call that the kernel refuses changes nothing and is no event. The
      last two are descriptors closed or duplicated behind the table's back. */
  datatype Event =
    | OpensGoldfish(fd: nat, id: Identity)
    | OpensOther(fd: nat, id: Identity)
    | Closes(cfd: int)
    | ClosesRange(first: nat, last: nat, flags: nat)
    | Dups(old_: nat, new_: nat)
    | Asks(qfd: int)
    | ClosesRaw(rfd: nat)
    | DupsRaw(rold: nat, rnew: nat)

  predicate Wrapped(e: Event) { !e.ClosesRaw? && !e.DupsRaw? }

  predicate Enabled(s: State, e: Event) {
    match e
    case OpensGoldfish(fd, _) => fd !in s.files
    case OpensOther(fd, _) => fd !in s.files
    case Dups(o, _) => o in s.files
    case DupsRaw(o, _) => o in s.files
    case _ => true
  }

  function Apply(s: State, e: Event): State
    requires Enabled(s, e)
  {
    match e
    case OpensGoldfish(fd, id) => OpenGoldfish(s, fd, id)
    case OpensOther(fd, id) => OpenOther(s, fd, id)
    case Closes(fd) => Close(s, fd)
    case ClosesRange(first, last, flags) => CloseRange(s, first, last, flags)
    case Dups(o, n) => Dup(s, o, n)
    case Asks(fd) => s.(table := Checked(s.table, fd, s.files))
    case ClosesRaw(fd) => s.(files := s.files - {fd})
    case DupsRaw(o, n) => s.(files := CopyFile(s.files, o, n))
  }

  function Start(): State { State(seq(LIMIT, _ => BLANK), map[], {}) }

  predicate IsRun(s: State, es: seq<Event>)
    decreases |es|
  {
    es == [] || (Enabled(s, es[0]) && IsRun(Apply(s, es[0]), es[1..]))
  }

  function After(s: State, es: seq<Event>): State
    requires IsRun(s, es)
    decreases |es|
  {
    if es == [] then s else After(Apply(s, es[0]), es[1..])
  }

  lemma StepKeeps(s: State, e: Event)
    requires Inv(s) && Wrapped(e) && Enabled(s, e)
    ensures Inv(Apply(s, e))
  {
    if e.Dups? {
      DupKeeps(s, e.old_, e.new_);
    } else if e.ClosesRange? {
      CloseRangeKeeps(s, e.first, e.last, e.flags);
    } else {
      var s' := Apply(s, e);
      forall fd | 0 <= fd < LIMIT
        ensures EntryOk(s', fd)
      {
        assert EntryOk(s, fd);
      }
    }
  }

  lemma {:induction false} RunsKeep(s: State, es: seq<Event>)
    requires Inv(s) && IsRun(s, es) && forall i :: 0 <= i < |es| ==> Wrapped(es[i])
    ensures Inv(After(s, es))
    decreases |es|
  {
    hide Inv, Enabled, Apply;
    if es != [] {
      StepKeeps(s, es[0]);
      RunsKeep(Apply(s, es[0]), es[1..]);
    }
  }

  /** In every run through the wrappers a descriptor is taken for an address-space one exactly when it is
      open, descends from an open of that device, and was duplicated through descriptors below 1024 only.
      The identity check then never fails. */
  lemma EveryRun(es: seq<Event>, fd: int)
    requires IsRun(Start(), es) && forall i :: 0 <= i < |es| ==> Wrapped(es[i])
    ensures var s := After(Start(), es);
            && (Answer(s.table, fd, s.files) <==> fd in s.files && s.files[fd].goldfish && Low(s.files[fd].chain))
            && Checked(s.table, fd, s.files) == s.table
  {
    hide IsRun, After;
    RunsKeep(Start(), es);
    var s := After(Start(), es);
    if 0 <= fd < LIMIT {
      assert EntryOk(s, fd);
    } else if fd in s.files {
      var c := s.files[fd].chain;
      assert c[|c| - 1] == fd;
    }
  }

  /** The descriptors a call can create. */
  predicate MakesLow(e: Event) {
    match e
    case OpensGoldfish(fd, _) => fd < LIMIT
    case OpensOther(fd, _) => fd < LIMIT
    case Dups(_, n) => n < LIMIT
    case DupsRaw(_, n) => n < LIMIT
    case _ => true
  }

  predicate AllLow(s: State) { forall fd :: fd in s.files ==> Low(s.files[fd].chain) }

  lemma {:induction false} StaysLow(s: State, es: seq<Event>)
    requires IsRun(s, es) && AllLow(s) && forall i :: 0 <= i < |es| ==> MakesLow(es[i])
    ensures AllLow(After(s, es))
    decreases |es|
  {
    if es != [] {
      match es[0] {
        case Dups(o, n) => ChainGrows(s.files[o].chain, n);
        case DupsRaw(o, n) => ChainGrows(s.files[o].chain, n);
        case _ =>
      }
      assert MakesLow(es[0]);
      StaysLow(Apply(s, es[0]), es[1..]);
    }
  }

  /** When no call makes a descriptor above 1023, the answer is exact. */
  lemma LowRunsAreExact(es: seq<Event>, fd: int)
    requires IsRun(Start(), es) && forall i :: 0 <= i < |es| ==> Wrapped(es[i]) && MakesLow(es[i])
    ensures var s := After(Start(), es); Answer(s.table, fd, s.files) <==> fd in s.files && s.files[fd].goldfish
  {
    hide IsRun, After;
    EveryRun(es, fd);
    StaysLow(Start(), es);
  }

  /** The bound matters: a descriptor that came back from above 1023 is open and descends from the
      device, and is not recognised. */
  lemma HighDupIsForgotten(id: Identity)
    ensures var es := [OpensGoldfish(5, id), Dups(5, 1024), Dups(1024, 6)];
            && IsRun(Start(), es)
            && 6 in After(Start(), es).files && After(Start(), es).files[6].goldfish
            && !Answer(After(Start(), es).table, 6, After(Start(), es).files)
  {
    var open, up, down := OpensGoldfish(5, id), Dups(5, 1024), Dups(1024, 6);
    var s1 := Apply(Start(), open);
    var s2 := Apply(s1, up);
    var s3 := Apply(s2, down);
    assert 6 in s3.files && s3.files[6].goldfish && !Answer(s3.table, 6, s3.files);
    hide Apply, Answer;
    assert [down][1..] == [] && [up, down][1..] == [down] && [open, up, down][1..] == [up, down];
    assert IsRun(s3, []) && After(s3, []) == s3;
    assert IsRun(s2, [down]) && After(s2, [down]) == s3;
    assert IsRun(s1, [up, down]) && After(s1, [up, down]) == s3;
  }

  // ---------- descriptors closed behind the table's back ----------

  /** What survives then: every active entry holds the identity of some address-space open. */
  predicate Sound(s: State) {
    Sized(s) && forall fd :: 0 <= fd < LIMIT && s.table[fd].active ==> s.table[fd].id in s.created
  }

  lemma {:induction false} RunsStaySound(s: State, es: seq<Event>)
    requires Sound(s) && IsRun(s, es)
    ensures Sound(After(s, es))
    decreases |es|
  {
    if es != [] {
      assert Sound(Apply(s, es[0]));
      RunsStaySound(Apply(s, es[0]), es[1..]);
    }
  }

  /** Even then, nothing is taken for an address-space descriptor unless it is open on a file with the
      identity of one: a reused number that now names a pipe or a socket is not. */
  lemma ReuseIsDetected(es: seq<Event>, fd: int)
    requires IsRun(Start(), es)
    ensures var s := After(Start(), es); Answer(s.table, fd, s.files) ==> fd in s.files && s.files[fd].id in s.created
  {
    hide IsRun, After;
    RunsStaySound(Start(), es);
  }

  // ---------- the library ----------

  class Library {
    const table: array<Entry>
    var files: map<nat, File>
    ghost var created: set<Identity>

    ghost function Now(): State
      reads this, table
    {
      State(table[..], files, created)
    }

    constructor ()
      ensures Now() == Start() && table.Length == LIMIT && fresh(table)
    {
      table := new Entry[LIMIT](_ => BLANK);
      files, created := map[], {};
      new;
      assert table[..] == Start().table;
    }

    /** clear_address_space_fd. */
    method Clear(fd: int)
      modifies table
      ensures table[..] == Cleared(old(table[..]), fd)
    {
      if fd < 0 || fd >= table.Length { return; }
      table[fd] := BLANK;
    }

    /** track_address_space_fd. */
    method Track(fd: int)
      modifies table
      ensures table[..] == Tracked(old(table[..]), fd, files)
    {
      if fd < 0 || fd >= table.Length || fd !in files { return; }
      Clear(fd);
      table[fd] := Entry(true, files[fd].id);
    }

    /** is_address_space_fd. */
    method IsAddressSpace(fd: int) returns (yes: bool)
      modifies table
      ensures yes == Answer(old(table[..]), fd, files) && table[..] == Checked(old(table[..]), fd, files)
    {
      if fd < 0 || fd >= table.Length || !table[fd].active { return false; }
      if fd !in files || files[fd].id != table[fd].id {
        Clear(fd);
        return false;
      }
      return true;
    }

    /** duplicate_address_space_fd. */
    method Duplicate(old_: int, new_: int)
      modifies table
      ensures table[..] == Duplicated(old(table[..]), old_, new_, files)
    {
      if old_ == new_ { return; }
      Clear(new_);
      if 0 <= new_ < table.Length {
        var yes := IsAddressSpace(old_);
        if yes { table[new_] := table[old_]; }
      }
    }

    /** __open_2 on the address-space device; `fd` is what the kernel returned. */
    method OpenAddressSpace(fd: int, id: Identity)
      requires Inv(Now()) && fd !in files
      modifies this`files, this`created, table
      ensures Inv(Now()) && Now() == if fd < 0 then old(Now()) else OpenGoldfish(old(Now()), fd, id)
    {
      ghost var s0 := Now();
      if fd >= 0 {
        files := files[fd := File(id, true, [fd])];
        created := created + {id};
        StepKeeps(s0, OpensGoldfish(fd, id));
      }
      hide Inv;
      Track(fd);
    }

    method CloseFd(fd: int) returns (result: int)
      requires Inv(Now())
      modifies this`files, table
      ensures Inv(Now()) && Now() == Close(old(Now()), fd) && (result == 0 <==> fd in old(files))
    {
      hide Inv;
      StepKeeps(Now(), Closes(fd));
      if fd !in files { return -1; }
      files := files - {fd};
      Clear(fd);
      result := 0;
    }

    /** close_range; `ok` is the kernel's verdict. Its arguments are 32 bits wide. */
    method CloseFds(first: nat, last: nat, flags: nat, ok: bool)
      requires Inv(Now())
      modifies this`files, table
      ensures Inv(Now()) && Now() == if ok then CloseRange(old(Now()), first, last, flags) else old(Now())
    {
      hide Inv;
      if !ok || CloExec(flags) { return; }
      ghost var s0 := Now();
      StepKeeps(s0, ClosesRange(first, last, flags));
      TableSize(s0);
      files := WithoutRange(files, first, last);
      if first < table.Length {
        var end := if last < table.Length then last else table.Length - 1;
        var fd := first;
        while fd <= end
          invariant first <= fd && (fd <= end + 1 || fd == first) && files == WithoutRange(s0.files, first, last)
          invariant table[..] == BlankRange(s0.table, first, fd)
        {
          Clear(fd);
          fd := fd + 1;
        }
      }
      assert |table[..]| == LIMIT && table[..] == BlankRange(s0.table, first, last + 1);
    }

    /** dup, dup2, dup3 and fcntl's duplications; `new_` is the descriptor the kernel settled on. */
    method DupFd(old_: nat, new_: nat)
      requires Inv(Now()) && old_ in files
      modifies this`files, table
      ensures Inv(Now()) && Now() == Dup(old(Now()), old_, new_)
    {
      hide Inv;
      StepKeeps(Now(), Dups(old_, new_));
      files := CopyFile(files, old_, new_);
      Duplicate(old_, new_);
    }
  }

  lemma TableSize(s: State)
    requires Inv(s)
    ensures Sized(s)
  {
  }
}
