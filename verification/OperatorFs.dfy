/**
 siem/rbac/broker_tls/operator_fs.py: a read of one file below a held root
 directory, with every name and descriptor checked before and after.

 `Below` writes the read as a recursion in which the checks of one path component
 enclose everything done below it; `ReadHeld` is the program's pair of loops and is
 shown to compute the same. The snapshot theorem follows the recursion.
 */
module OperatorFs {
  import opened Common
  import opened Kernel
  import opened VendorNames

  const CHUNK := 65536
  const MAX_READ := 100 * 1024 * 1024

  type Owners = seq<string> -> set<(nat, nat)>

  predicate ComponentChar(c: char) {
    0x20 < c as int < 0x7f && c != '/' && c != '\\' && c != ':'
  }

  predicate Component(p: string) {
    0 < |p| <= 255 && p != "." && p != ".." && forall i :: 0 <= i < |p| ==> ComponentChar(p[i])
  }

  /** `_components` */
  predicate Components(parts: seq<string>) {
    0 < |parts| <= 128 && forall i :: 0 <= i < |parts| ==> Component(parts[i])
  }

  /** `_owners`: the service account may own the vendor tree, root owns everything else. */
  function OwnersFor(identity: (nat, nat)): Owners {
    (parts: seq<string>) => if VENDOR <= parts then {(0, 0), identity} else {(0, 0)}
  }

  /** `_trusted`: the expected kind, an accepted owner, and none of the mode bits 06022. */
  predicate Trusted(st: Stat, directory: bool, owners: set<(nat, nat)>) {
    st.kind == (if directory then Directory else Regular) && (st.uid, st.gid) in owners && st.perm & 0xC12 == 0
  }

  /** Trusted is what only an accepted owner can write, and what changes nobody's identity when it runs. */
  lemma TrustedExactly(st: Stat, directory: bool, owners: set<(nat, nat)>)
    ensures Trusted(st, directory, owners) <==>
            && (if directory then st.kind.Directory? else st.kind.Regular?) && (st.uid, st.gid) in owners
            && st.perm & 0x800 == 0 && st.perm & 0x400 == 0 && st.perm & 0x10 == 0 && st.perm & 0x2 == 0
  {
    var p := st.perm;
    assert p & 0xC12 == (p & 0x800) | (p & 0x400) | (p & 0x10) | (p & 0x2);
    assert p & 0xC12 == 0 ==> p & 0x800 == (p & 0xC12) & 0x800;
    assert p & 0xC12 == 0 ==> p & 0x400 == (p & 0xC12) & 0x400;
    assert p & 0xC12 == 0 ==> p & 0x10 == (p & 0xC12) & 0x10;
    assert p & 0xC12 == 0 ==> p & 0x2 == (p & 0xC12) & 0x2;
  }

  const FS_COMPONENTS := Operator("FS_COMPONENTS")
  const FS_BOUND := Operator("FS_BOUND")
  const FS_METADATA := Operator("FS_METADATA")
  const FS_SIZE := Operator("FS_SIZE")
  const FS_CHANGED := Operator("FS_CHANGED")

  // ----- The read as nested checks -----

  /** A call sequence that ended at `time`. */
  datatype Run<+R> = Run(time: nat, result: Result<R, Error>)

  /** An opened component: where it was looked up, what was opened, and its first metadata. */
  datatype Record = Record(parent: Inode, name: string, inode: Inode, before: Stat)

  /** The bytes of a read and the inodes opened for it, outermost first. */
  datatype Reading = Reading(data: seq<byte>, chain: seq<Inode>)

  /** The result a run reports: the bytes, or the failure. */
  function Bytes(run: Run<Reading>): Result<seq<byte>, Error> {
    if run.result.Ok? then Ok(run.result.value.data) else Err(run.result.error)
  }

  function Leaf(parts: seq<string>, i: nat): bool { i + 1 >= |parts| }

  /** The checks before and the opening of component `i`. */
  function Enter(env: Env, t: nat, parent: Inode, parts: seq<string>, i: nat, limit: nat, owners: Owners): (r: Run<Record>)
    requires i < |parts|
    ensures r.time > t
  {
    var directory, allowed := !Leaf(parts, i), owners(parts[..i + 1]);
    var t1 := Next(env.gap, t);
    var before := StatAt(env, t1, parent, parts[i]);
    if before.Err? then Run(t1, Err(before.error))
    else if !Trusted(before.value, directory, allowed) then Run(t1, Err(FS_METADATA))
    else if !directory && before.value.size > limit then Run(t1, Err(FS_SIZE))
    else
      var t2 := Next(env.gap, t1);
      var inode := OpenAt(env, t2, parent, parts[i], directory);
      if inode.Err? then Run(t2, Err(inode.error))
      else
        var t3 := Next(env.gap, t2);
        var held := FstatAt(env, t3, inode.value);
        if held.Err? then Run(t3, Err(held.error))
        else if !Trusted(held.value, directory, allowed) then Run(t3, Err(FS_METADATA))
        else if before.value != held.value then Run(t3, Err(FS_CHANGED))
        else Run(t3, Ok(Record(parent, parts[i], inode.value, before.value)))
  }

  /** The chunked read; it stops at the end of the file or past the limit. */
  function Chunks(env: Env, t: nat, inode: Inode, data: seq<byte>, limit: nat): (r: Run<seq<byte>>)
    ensures r.time >= t
    decreases limit + 1 - |data|
  {
    if |data| > limit then Run(t, Ok(data))
    else
      var t1 := Next(env.gap, t);
      var chunk := ReadAt(env, t1, inode, |data|, Amount(limit, |data|));
      if chunk.Err? then Run(t1, Err(chunk.error))
      else if chunk.value == [] then Run(t1, Ok(data))
      else Chunks(env, t1, inode, data + chunk.value, limit)
  }

  /** How much the next read asks for. */
  function Amount(limit: nat, size: nat): (n: nat)
    requires size <= limit
    ensures 0 < n <= limit + 1 - size
  {
    if CHUNK < limit + 1 - size then CHUNK else limit + 1 - size
  }

  function Contents(env: Env, t: nat, record: Record, limit: nat): (r: Run<Reading>)
    ensures r.time >= t
  {
    var run := Chunks(env, t, record.inode, [], limit);
    if run.result.Err? then Run(run.time, Err(run.result.error))
    else if |run.result.value| > limit || |run.result.value| != record.before.size then Run(run.time, Err(FS_SIZE))
    else Run(run.time, Ok(Reading(run.result.value, [])))
  }

  /** The checks of a component after everything below it is done. */
  function Leave(env: Env, inner: Run<Reading>, record: Record): (r: Run<Reading>)
    ensures r.time >= inner.time
  {
    if inner.result.Err? then inner
    else
      var t1 := Next(env.gap, inner.time);
      var held := FstatAt(env, t1, record.inode);
      if held.Err? then Run(t1, Err(held.error))
      else if held.value != record.before then Run(t1, Err(FS_CHANGED))
      else
        var t2 := Next(env.gap, t1);
        var named := StatAt(env, t2, record.parent, record.name);
        if named.Err? then Run(t2, Err(named.error))
        else if named.value != record.before then Run(t2, Err(FS_CHANGED))
        else Run(t2, Ok(Reading(inner.result.value.data, [record.inode] + inner.result.value.chain)))
  }

  function Below(env: Env, t: nat, parent: Inode, parts: seq<string>, i: nat, limit: nat, owners: Owners): (r: Run<Reading>)
    requires i < |parts|
    ensures r.time > t
    decreases |parts| - i, 1
  {
    var entered := Enter(env, t, parent, parts, i, limit, owners);
    if entered.result.Err? then Run(entered.time, Err(entered.result.error))
    else
      Leave(env, Inner(env, entered.time, entered.result.value, parts, i, limit, owners), entered.result.value)
  }

  /** What is done between the two checks of component `i`. */
  function Inner(env: Env, t: nat, record: Record, parts: seq<string>, i: nat, limit: nat, owners: Owners): (r: Run<Reading>)
    requires i < |parts|
    ensures r.time >= t
    decreases |parts| - i, 0
  {
    if Leaf(parts, i) then Contents(env, t, record, limit)
    else Below(env, t, record.inode, parts, i + 1, limit, owners)
  }

  /** `_read_at` on a root directory already open. */
  function Reads(env: Env, t: nat, root: Inode, parts: seq<string>, limit: int, owners: Owners): (r: Run<Reading>)
    ensures r.time >= t
  {
    if !Components(parts) then Run(t, Err(FS_COMPONENTS))
    else if !(0 <= limit <= MAX_READ) then Run(t, Err(FS_BOUND))
    else
      var t1 := Next(env.gap, t);
      var before := FstatAt(env, t1, root);
      if before.Err? then Run(t1, Err(before.error))
      else if !Trusted(before.value, true, owners([])) then Run(t1, Err(FS_METADATA))
      else
        var inner := Below(env, t1, root, parts, 0, limit, owners);
        if inner.result.Err? then inner
        else
          var t2 := Next(env.gap, inner.time);
          var after := FstatAt(env, t2, root);
          if after.Err? then Run(t2, Err(after.error))
          else if before.value != after.value then Run(t2, Err(FS_CHANGED))
          else Run(t2, inner.result)
  }

  // ----- A successful read is a snapshot -----

  predicate SameStamp(env: Env, n: Inode, a: nat, c: nat) {
    n in env.history(a) && n in env.history(c) && env.history(a)[n].stat == env.history(c)[n].stat
  }

  ghost predicate Constant(env: Env, n: Inode, node: Node, a: nat, c: nat) {
    forall t :: a <= t <= c ==> n in env.history(t) && env.history(t)[n] == node
  }

  /** Whatever changes a node changes its stamp, and no stamp comes back. */
  ghost predicate NoStampReuse(env: Env) {
    forall n, a, c :: a <= c && SameStamp(env, n, a, c) ==> Constant(env, n, env.history(a)[n], a, c)
  }

  /**
   In one file-system state, the path below `parent` leads through exactly the opened
   inodes, each with trusted metadata, to a file whose whole content is `data`.
   */
  predicate SnapshotIn(fs: Fs, parent: Inode, parts: seq<string>, i: nat, owners: Owners, reading: Reading)
    requires i < |parts|
    decreases |parts| - i
  {
    && parent in fs && parts[i] in fs[parent].entries
    && var n := fs[parent].entries[parts[i]];
    && n in fs && Trusted(fs[n].stat, !Leaf(parts, i), owners(parts[..i + 1]))
    && reading.chain != [] && reading.chain[0] == n
    && if Leaf(parts, i) then
         reading.chain == [n] && fs[n].data == reading.data && fs[n].stat.size == |reading.data|
       else
         SnapshotIn(fs, n, parts, i + 1, owners, Reading(reading.data, reading.chain[1..]))
  }

  lemma {:induction false} ChunksReadAll(env: Env, t: nat, inode: Inode, node: Node, data: seq<byte>, limit: nat)
    requires var run := Chunks(env, t, inode, data, limit);
             Constant(env, inode, node, t, run.time) && run.result.Ok? && |run.result.value| <= limit
    requires data <= node.data
    ensures Chunks(env, t, inode, data, limit).result.value == node.data
    decreases limit + 1 - |data|
  {
    if |data| <= limit {
      var t1 := Next(env.gap, t);
      var chunk := ReadAt(env, t1, inode, |data|, Amount(limit, |data|));
      assert env.history(t1)[inode] == node;
      if chunk.Ok? && chunk.value != [] {
        assert data + chunk.value <= node.data;
        ChunksReadAll(env, t1, inode, node, data + chunk.value, limit);
      }
    }
  }

  /** Opening a component that passed its checks yields the inode its name resolved to. */
  lemma EnteredResolved(env: Env, t: nat, parent: Inode, node: Node, parts: seq<string>, i: nat, limit: nat, owners: Owners)
    requires Identified(env) && i < |parts|
    requires var r := Enter(env, t, parent, parts, i, limit, owners);
             r.result.Ok? && Constant(env, parent, node, t, r.time)
    ensures var r := Enter(env, t, parent, parts, i, limit, owners);
            parts[i] in node.entries && node.entries[parts[i]] == r.result.value.inode
            && Trusted(r.result.value.before, !Leaf(parts, i), owners(parts[..i + 1]))
            && r.result.value.inode in env.history(r.time)
            && env.history(r.time)[r.result.value.inode].stat == r.result.value.before
  {
    assert env.history(Next(env.gap, t))[parent] == node;
  }

  /** While the parent does not change, the read below it is a snapshot at some instant. */
  lemma {:induction false} BelowIsSnapshot(env: Env, t: nat, parent: Inode, node: Node, parts: seq<string>, i: nat,
                                           limit: nat, owners: Owners) returns (instant: nat)
    requires Identified(env) && NoStampReuse(env) && i < |parts|
    requires var run := Below(env, t, parent, parts, i, limit, owners);
             run.result.Ok? && Constant(env, parent, node, t, run.time)
    ensures var run := Below(env, t, parent, parts, i, limit, owners);
            t <= instant <= run.time && |run.result.value.data| <= limit
            && SnapshotIn(env.history(instant), parent, parts, i, owners, run.result.value)
    decreases |parts| - i
  {
    var entered := Enter(env, t, parent, parts, i, limit, owners);
    var inner := Inner(env, entered.time, entered.result.value, parts, i, limit, owners);
    var n := entered.result.value.inode;
    ComponentHeld(env, t, parent, node, parts, i, limit, owners);
    var child := env.history(entered.time)[n];
    if Leaf(parts, i) {
      ChunksReadAll(env, entered.time, n, child, [], limit);
      instant := entered.time;
    } else {
      instant := BelowIsSnapshot(env, entered.time, n, child, parts, i + 1, limit, owners);
    }
    assert env.history(instant)[parent] == node && env.history(instant)[n] == child;
    var whole := Below(env, t, parent, parts, i, limit, owners).result.value;
    assert whole.chain == [n] + inner.result.value.chain && whole.chain[1..] == inner.result.value.chain;
  }

  /** Between its two checks an accepted component is what its name resolves to, and does not change. */
  lemma ComponentHeld(env: Env, t: nat, parent: Inode, node: Node, parts: seq<string>, i: nat, limit: nat, owners: Owners)
    requires Identified(env) && NoStampReuse(env) && i < |parts|
    requires var run := Below(env, t, parent, parts, i, limit, owners);
             run.result.Ok? && Constant(env, parent, node, t, run.time)
    ensures var run := Below(env, t, parent, parts, i, limit, owners);
            var entered := Enter(env, t, parent, parts, i, limit, owners);
            entered.result.Ok? &&
            var record := entered.result.value;
            var inner := Inner(env, entered.time, record, parts, i, limit, owners);
            && inner.result.Ok? && t <= entered.time <= inner.time <= run.time
            && run.result.value == Reading(inner.result.value.data, [record.inode] + inner.result.value.chain)
            && parts[i] in node.entries && node.entries[parts[i]] == record.inode
            && record.inode in env.history(entered.time)
            && var child := env.history(entered.time)[record.inode];
            && child.stat == record.before && Trusted(child.stat, !Leaf(parts, i), owners(parts[..i + 1]))
            && Constant(env, record.inode, child, entered.time, inner.time)
  {
    var entered := Enter(env, t, parent, parts, i, limit, owners);
    EnteredResolved(env, t, parent, node, parts, i, limit, owners);
    var inner := Inner(env, entered.time, entered.result.value, parts, i, limit, owners);
    assert SameStamp(env, entered.result.value.inode, entered.time, Next(env.gap, inner.time));
  }

  /**
   If stamps are never reused, a successful read returned the whole content of the
   file at one instant during the call, when every name on the path led to the inode
   that was opened and every one of them, the root included, was trusted.
   */
  lemma ReadIsSnapshot(env: Env, t: nat, root: Inode, parts: seq<string>, limit: int, owners: Owners)
    requires Identified(env) && NoStampReuse(env)
    requires Reads(env, t, root, parts, limit, owners).result.Ok?
    ensures var run := Reads(env, t, root, parts, limit, owners);
            exists instant :: t < instant <= run.time
                              && root in env.history(instant) && Trusted(env.history(instant)[root].stat, true, owners([]))
                              && SnapshotIn(env.history(instant), root, parts, 0, owners, run.result.value)
    ensures |Reads(env, t, root, parts, limit, owners).result.value.data| <= limit
  {
    var t1 := Next(env.gap, t);
    var inner := Below(env, t1, root, parts, 0, limit, owners);
    var t2 := Next(env.gap, inner.time);
    assert SameStamp(env, root, t1, t2);
    var node := env.history(t1)[root];
    assert Constant(env, root, node, t1, inner.time);
    var instant := BelowIsSnapshot(env, t1, root, node, parts, 0, limit, owners);
    assert env.history(instant)[root] == node;
  }

  // ----- Without that assumption the bytes may never have been the content -----

  const TORN_ROOT := Inode(1, 2)
  const TORN_FILE := Inode(1, 3)

  function TornFs(data: seq<byte>): Fs {
    map[TORN_ROOT := Node(Stat(TORN_ROOT, Directory, 0x1ED, 0, 0, 2, 0, 0, 0), [], map["f" := TORN_FILE]),
        TORN_FILE := Node(Stat(TORN_FILE, Regular, 0x1A4, 0, 0, 1, 2, 0, 0), data, map[])]
  }

  /** A file rewritten within one clock tick, between two reads of one byte. */
  function TornEnv(): Env {
    Env(TORN_ROOT, (t: nat) => if t < 6 then TornFs([1, 2]) else TornFs([3, 4]), (t: nat) => 0, (t: nat) => None, (t: nat) => 1)
  }

  lemma TornChunks()
    ensures Chunks(TornEnv(), 4, TORN_FILE, [], 2) == Run(7, Ok([1, 4]))
  {
    var env := TornEnv();
    var old2: seq<byte>, new2: seq<byte> := [1, 2], [3, 4];
    assert env.history(5) == TornFs(old2) && env.history(6) == env.history(7) == TornFs(new2);
    assert old2[0..1] == [1] && new2[1..2] == [4];
    assert ReadAt(env, 5, TORN_FILE, 0, 3) == Ok([1]);
    assert ReadAt(env, 6, TORN_FILE, 1, 2) == Ok([4]);
    assert ReadAt(env, 7, TORN_FILE, 2, 1) == Ok([]);
    var none: seq<byte>, one: seq<byte> := [], [1];
    assert none + [1] == one && one + [4] == [1, 4];
    assert Chunks(env, 6, TORN_FILE, [1, 4], 2) == Run(7, Ok([1, 4]));
    assert Chunks(env, 5, TORN_FILE, [1], 2) == Run(7, Ok([1, 4]));
  }

  const TORN_OWNERS: Owners := _ => {(0, 0)}

  lemma TornEntered()
    ensures Enter(TornEnv(), 1, TORN_ROOT, ["f"], 0, 2, TORN_OWNERS)
         == Run(4, Ok(Record(TORN_ROOT, "f", TORN_FILE, TornFs([])[TORN_FILE].stat)))
    ensures Trusted(TornFs([])[TORN_ROOT].stat, true, TORN_OWNERS([]))
  {
    var env, parts := TornEnv(), ["f"];
    assert env.history(2) == env.history(3) == env.history(4) == TornFs([1, 2]);
    assert (0x1A4 as bv12) & 0xC12 == 0 && (0x1ED as bv12) & 0xC12 == 0;
    assert parts[..1] == ["f"];
  }

  const TORN_RECORD := Record(TORN_ROOT, "f", TORN_FILE, TornFs([])[TORN_FILE].stat)

  lemma TornBelow()
    ensures Below(TornEnv(), 1, TORN_ROOT, ["f"], 0, 2, TORN_OWNERS) == Run(9, Ok(Reading([1, 4], [TORN_FILE])))
  {
    var env, parts := TornEnv(), ["f"];
    TornEntered();
    TornChunks();
    var inner := Run(7, Ok(Reading([1, 4], [])));
    assert Contents(env, 4, TORN_RECORD, 2) == inner && Inner(env, 4, TORN_RECORD, parts, 0, 2, TORN_OWNERS) == inner;
    TornLeave(inner);
  }

  lemma TornLeave(inner: Run<Reading>)
    requires inner == Run(7, Ok(Reading([1, 4], [])))
    ensures Leave(TornEnv(), inner, TORN_RECORD) == Run(9, Ok(Reading([1, 4], [TORN_FILE])))
  {
    assert TornEnv().history(8) == TornEnv().history(9) == TornFs([3, 4]);
    var none: seq<Inode> := [];
    assert [TORN_FILE] + none == [TORN_FILE];
  }

  lemma TornNeverHeld(t: nat)
    ensures !SnapshotIn(TornEnv().history(t), TORN_ROOT, ["f"], 0, TORN_OWNERS, Reading([1, 4], [TORN_FILE]))
  {
    var fs := TornEnv().history(t);
    var one: seq<byte>, two: seq<byte> := [1, 2], [3, 4];
    assert fs == TornFs(one) || fs == TornFs(two);
    assert one[1] != 4 && two[0] != 1;
  }

  lemma TornIdentified()
    ensures Identified(TornEnv())
  {
    var env := TornEnv();
    forall t, n | n in env.history(t) ensures env.history(t)[n].stat.inode == n {
      assert env.history(t) == TornFs([1, 2]) || env.history(t) == TornFs([3, 4]);
    }
  }

  lemma TornReads()
    ensures Reads(TornEnv(), 0, TORN_ROOT, ["f"], 2, TORN_OWNERS) == Run(10, Ok(Reading([1, 4], [TORN_FILE])))
  {
    assert Component("f") && Components(["f"]);
    TornEntered();
    TornBelow();
    TornRootHeld();
  }

  lemma TornRootHeld()
    ensures FstatAt(TornEnv(), 1, TORN_ROOT) == FstatAt(TornEnv(), 10, TORN_ROOT) == Ok(TornFs([])[TORN_ROOT].stat)
    ensures Next(TornEnv().gap, 0) == 1 && Next(TornEnv().gap, 9) == 10
  {
    assert TornEnv().history(1) == TornFs([1, 2]) && TornEnv().history(10) == TornFs([3, 4]);
  }

  /** With a reused stamp, every check passes on bytes that the file never held. */
  lemma TornReadPasses()
    ensures Identified(TornEnv())
    ensures Reads(TornEnv(), 0, TORN_ROOT, ["f"], 2, TORN_OWNERS) == Run(10, Ok(Reading([1, 4], [TORN_FILE])))
    ensures forall t :: !SnapshotIn(TornEnv().history(t), TORN_ROOT, ["f"], 0, TORN_OWNERS, Reading([1, 4], [TORN_FILE]))
  {
    TornIdentified();
    TornReads();
    forall t ensures !SnapshotIn(TornEnv().history(t), TORN_ROOT, ["f"], 0, TORN_OWNERS, Reading([1, 4], [TORN_FILE])) {
      TornNeverHeld(t);
    }
  }

  // ----- The program's loops -----

  /** Undoing the components entered so far, innermost first. */
  function Unwind(env: Env, records: seq<Record>, run: Run<Reading>): Run<Reading> {
    if records == [] then run
    else Unwind(env, records[..|records| - 1], Leave(env, run, records[|records| - 1]))
  }

  lemma {:induction false} FailureUnwinds(env: Env, records: seq<Record>, run: Run<Reading>)
    requires run.result.Err?
    ensures Unwind(env, records, run) == run
  {
    if records != [] {
      FailureUnwinds(env, records[..|records| - 1], run);
    }
  }

  /** An entry of the program's `records`: parent descriptor, name, descriptor, first metadata. */
  datatype Held = Held(parent: nat, name: string, fd: nat, before: Stat)

  /** The entry stands for the record under a descriptor table. */
  predicate Denotes(descriptors: map<nat, Inode>, held: Held, record: Record) {
    && held.fd in descriptors && held.parent in descriptors
    && record == Record(descriptors[held.parent], held.name, descriptors[held.fd], held.before)
  }

  /** What an open stack adds to a descriptor table. */
  predicate Adds(before: map<nat, Inode>, after: map<nat, Inode>, stack: seq<nat>) {
    && (forall f :: f in before ==> f in after && after[f] == before[f])
    && (forall f :: f in after ==> f in before || f in stack)
    && (forall f :: f in stack ==> f in after && f !in before)
    && (forall i, j :: 0 <= i < j < |stack| ==> stack[i] != stack[j])
  }

  /** At most one descriptor was opened, and it is on top of the stack. */
  predicate Pushed(before: map<nat, Inode>, after: map<nat, Inode>, stack: seq<nat>, stack': seq<nat>) {
    || (stack' == stack && after == before)
    || (|stack'| == |stack| + 1 && stack' == stack + [stack'[|stack|]]
        && var fd := stack'[|stack|]; fd !in before && fd in after && after == before[fd := after[fd]])
  }

  lemma PushedAdds(start: map<nat, Inode>, before: map<nat, Inode>, after: map<nat, Inode>, stack: seq<nat>, stack': seq<nat>)
    requires Adds(start, before, stack) && Pushed(before, after, stack, stack')
    ensures Adds(start, after, stack')
  {
  }

  /** Steps of one component; a descriptor that was opened is pushed on the exit stack at once. */
  method EnterHeld(p: Process, parent: nat, parts: seq<string>, i: nat, limit: nat, owners: Owners, stack: seq<nat>)
    returns (r: Result<Held, Error>, stack': seq<nat>)
    requires p.Valid() && parent in p.descriptors && i < |parts|
    modifies p
    ensures p.Valid()
    ensures var run := Enter(p.env, old(p.clock), old(p.descriptors)[parent], parts, i, limit, owners);
            p.clock == run.time && (r.Err? <==> run.result.Err?)
            && (r.Err? ==> r.error == run.result.error)
            && (r.Ok? ==> Denotes(p.descriptors, r.value, run.result.value) && r.value.parent == parent
                          && r.value.fd in p.offsets && p.offsets[r.value.fd] == 0)
    ensures Pushed(old(p.descriptors), p.descriptors, stack, stack')
    ensures r.Ok? ==> stack' == stack + [r.value.fd]
  {
    stack' := stack;
    var directory, allowed := !Leaf(parts, i), owners(parts[..i + 1]);
    var before := p.Stat(parent, parts[i]);
    if before.Err? {
      return Err(before.error), stack;
    }
    if !Trusted(before.value, directory, allowed) {
      return Err(FS_METADATA), stack;
    }
    if !directory && before.value.size > limit {
      return Err(FS_SIZE), stack;
    }
    var fd := p.Open(parent, parts[i], directory);
    if fd.Err? {
      return Err(fd.error), stack;
    }
    stack' := stack + [fd.value];
    var held := p.Fstat(fd.value);
    if held.Err? {
      return Err(held.error), stack';
    }
    if !Trusted(held.value, directory, allowed) {
      return Err(FS_METADATA), stack';
    }
    if before.value != held.value {
      return Err(FS_CHANGED), stack';
    }
    r := Ok(Held(parent, parts[i], fd.value, before.value));
  }

  method ReadChunks(p: Process, fd: nat, limit: nat) returns (r: Result<seq<byte>, Error>)
    requires p.Valid() && fd in p.descriptors && p.offsets[fd] == 0
    modifies p`clock, p`offsets
    ensures p.Valid()
    ensures Run(p.clock, r) == Chunks(p.env, old(p.clock), p.descriptors[fd], [], limit)
  {
    var data: seq<byte> := [];
    while |data| <= limit
      invariant p.Valid() && fd in p.descriptors && p.offsets[fd] == |data|
      invariant Chunks(p.env, p.clock, p.descriptors[fd], data, limit)
             == Chunks(p.env, old(p.clock), p.descriptors[fd], [], limit)
      decreases limit + 1 - |data|
    {
      var chunk := p.Read(fd, Amount(limit, |data|));
      if chunk.Err? {
        return Err(chunk.error);
      }
      if chunk.value == [] {
        return Ok(data);
      }
      data := data + chunk.value;
    }
    r := Ok(data);
  }

  /** The recheck of one entry. */
  method LeaveHeld(p: Process, held: Held, ghost inner: Run<Reading>) returns (r: Option<Error>)
    requires p.Valid() && held.fd in p.descriptors && held.parent in p.descriptors
    requires inner.result.Ok? && inner.time == p.clock
    modifies p`clock
    ensures var run := Leave(p.env, inner, Record(p.descriptors[held.parent], held.name, p.descriptors[held.fd], held.before));
            p.clock == run.time && (r.None? <==> run.result.Ok?) && (r.Some? ==> r.value == run.result.error)
            && (run.result.Ok? ==> run.result.value.data == inner.result.value.data)
  {
    var opened' := p.Fstat(held.fd);
    if opened'.Err? {
      return Some(opened'.error);
    }
    if opened'.value != held.before {
      return Some(FS_CHANGED);
    }
    var named := p.Stat(held.parent, held.name);
    if named.Err? {
      return Some(named.error);
    }
    if named.value != held.before {
      return Some(FS_CHANGED);
    }
    return None;
  }

  /** The entries stand for the records, in order. */
  ghost predicate AllDenote(descriptors: map<nat, Inode>, held: seq<Held>, records: seq<Record>) {
    |held| == |records| && forall k :: 0 <= k < |held| ==> Denotes(descriptors, held[k], records[k])
  }

  lemma StillDenote(before: map<nat, Inode>, after: map<nat, Inode>, stack: seq<nat>, stack': seq<nat>,
                    held: seq<Held>, records: seq<Record>)
    requires AllDenote(before, held, records) && Pushed(before, after, stack, stack')
    ensures AllDenote(after, held, records)
  {
    forall k | 0 <= k < |held| ensures Denotes(after, held[k], records[k]) {
      assert Denotes(before, held[k], records[k]);
    }
  }

  lemma DenoteMore(descriptors: map<nat, Inode>, held: seq<Held>, records: seq<Record>, more: Held, record: Record)
    requires AllDenote(descriptors, held, records) && Denotes(descriptors, more, record)
    ensures AllDenote(descriptors, held + [more], records + [record])
  {
  }

  /** Once a component is entered, the checks after it are one more to unwind. */
  lemma UnwindDeeper(env: Env, t: nat, parent: Inode, parts: seq<string>, i: nat, limit: nat, owners: Owners, records: seq<Record>)
    requires i < |parts| && Enter(env, t, parent, parts, i, limit, owners).result.Ok?
    ensures var entered := Enter(env, t, parent, parts, i, limit, owners);
            var record := entered.result.value;
            Unwind(env, records, Below(env, t, parent, parts, i, limit, owners))
            == Unwind(env, records + [record], Inner(env, entered.time, record, parts, i, limit, owners))
  {
    var record := Enter(env, t, parent, parts, i, limit, owners).result.value;
    assert (records + [record])[..|records|] == records;
  }

  /** The walk over the components: opens each one, or reports the first failure. */
  method Walk(p: Process, root: nat, parts: seq<string>, limit: nat, owners: Owners)
    returns (r: Result<seq<Held>, Error>, stack: seq<nat>, ghost records: seq<Record>)
    requires p.Valid() && root in p.descriptors && parts != []
    modifies p
    ensures p.Valid() && Adds(old(p.descriptors), p.descriptors, stack)
    ensures var whole := Below(p.env, old(p.clock), old(p.descriptors)[root], parts, 0, limit, owners);
            if r.Err? then whole == Run(p.clock, Err(r.error))
            else
              && r.value != [] && AllDenote(p.descriptors, r.value, records)
              && var last := r.value[|r.value| - 1];
              && last.fd in p.offsets && p.offsets[last.fd] == 0
              && whole == Unwind(p.env, records, Contents(p.env, p.clock, records[|records| - 1], limit))
  {
    ghost var whole := Below(p.env, p.clock, p.descriptors[root], parts, 0, limit, owners);
    var list: seq<Held> := [];
    var parent := root;
    stack, records := [], [];
    for i := 0 to |parts|
      invariant p.Valid() && Adds(old(p.descriptors), p.descriptors, stack)
      invariant parent in p.descriptors && AllDenote(p.descriptors, list, records)
      invariant i < |parts| ==> whole == Unwind(p.env, records, Below(p.env, p.clock, p.descriptors[parent], parts, i, limit, owners))
      invariant i > 0 ==> list != [] && list[|list| - 1].fd in p.offsets && p.offsets[list[|list| - 1].fd] == 0
      invariant i == |parts| ==> whole == Unwind(p.env, records, Contents(p.env, p.clock, records[|records| - 1], limit))
    {
      ghost var time, before, stack0 := p.clock, p.descriptors, stack;
      ghost var entered := Enter(p.env, time, before[parent], parts, i, limit, owners);
      var held;
      held, stack := EnterHeld(p, parent, parts, i, limit, owners, stack);
      PushedAdds(old(p.descriptors), before, p.descriptors, stack0, stack);
      if held.Err? {
        FailureUnwinds(p.env, records, Run(entered.time, Err(entered.result.error)));
        return Err(held.error), stack, records;
      }
      StillDenote(before, p.descriptors, stack0, stack, list, records);
      DenoteMore(p.descriptors, list, records, held.value, entered.result.value);
      UnwindDeeper(p.env, time, before[parent], parts, i, limit, owners, records);
      list, records := list + [held.value], records + [entered.result.value];
      parent := held.value.fd;
    }
    r := Ok(list);
  }

  /** The bytes of the leaf, with the size check that follows the loop. */
  method ReadLeaf(p: Process, last: Held, ghost record: Record, limit: nat) returns (r: Result<seq<byte>, Error>)
    requires p.Valid() && Denotes(p.descriptors, last, record) && p.offsets[last.fd] == 0
    modifies p`clock, p`offsets
    ensures p.Valid()
    ensures var run := Contents(p.env, old(p.clock), record, limit); p.clock == run.time && r == Bytes(run)
  {
    var data := ReadChunks(p, last.fd, limit);
    if data.Err? {
      return data;
    }
    if |data.value| > limit || |data.value| != last.before.size {
      return Err(FS_SIZE);
    }
    r := data;
  }

  /** The recheck loop, from the last entry to the first. */
  method Recheck(p: Process, list: seq<Held>, ghost records: seq<Record>, ghost start: Run<Reading>) returns (r: Option<Error>)
    requires p.Valid() && AllDenote(p.descriptors, list, records)
    requires start.result.Ok? && start.time == p.clock
    modifies p`clock
    ensures var whole := Unwind(p.env, records, start);
            p.clock == whole.time && (r.None? <==> whole.result.Ok?) && (r.Some? ==> r.value == whole.result.error)
            && (r.None? ==> whole.result.value.data == start.result.value.data)
  {
    ghost var run := start;
    var j := |list|;
    assert records[..j] == records;
    while j > 0
      invariant 0 <= j <= |list|
      invariant run.result.Ok? && run.result.value.data == start.result.value.data && run.time == p.clock
      invariant Unwind(p.env, records, start) == Unwind(p.env, records[..j], run)
    {
      j := j - 1;
      assert Denotes(p.descriptors, list[j], records[j]);
      assert records[..j + 1][..j] == records[..j];
      ghost var next := Leave(p.env, run, records[j]);
      var failed := LeaveHeld(p, list[j], run);
      if failed.Some? {
        FailureUnwinds(p.env, records[..j], next);
        return failed;
      }
      run := next;
    }
    r := None;
  }

  /** Everything between the two checks of the root. */
  method ReadBelow(p: Process, root: nat, parts: seq<string>, limit: nat, owners: Owners)
    returns (r: Result<seq<byte>, Error>, stack: seq<nat>)
    requires p.Valid() && root in p.descriptors && parts != []
    modifies p
    ensures p.Valid() && Adds(old(p.descriptors), p.descriptors, stack)
    ensures var run := Below(p.env, old(p.clock), old(p.descriptors)[root], parts, 0, limit, owners);
            p.clock == run.time && r == Bytes(run)
  {
    var walked;
    ghost var records;
    walked, stack, records := Walk(p, root, parts, limit, owners);
    if walked.Err? {
      return Err(walked.error), stack;
    }
    var last := walked.value[|walked.value| - 1];
    ghost var contents := Contents(p.env, p.clock, records[|records| - 1], limit);
    assert Denotes(p.descriptors, last, records[|records| - 1]);
    r := ReadLeaf(p, last, records[|records| - 1], limit);
    if r.Err? {
      FailureUnwinds(p.env, records, contents);
      return r, stack;
    }
    var failed := Recheck(p, walked.value, records, contents);
    if failed.Some? {
      r := Err(failed.value);
    }
  }

  /** The body of the `with` block; `stack` holds what the block leaves to be closed. */
  method Guarded(p: Process, root: nat, parts: seq<string>, limit: nat, owners: Owners)
    returns (r: Result<seq<byte>, Error>, stack: seq<nat>)
    requires p.Valid() && root in p.descriptors && Components(parts) && limit <= MAX_READ
    modifies p
    ensures p.Valid() && Adds(old(p.descriptors), p.descriptors, stack)
    ensures var run := Reads(p.env, old(p.clock), old(p.descriptors)[root], parts, limit, owners);
            p.clock == run.time && r == Bytes(run)
  {
    var rootBefore := p.Fstat(root);
    if rootBefore.Err? {
      return Err(rootBefore.error), [];
    }
    if !Trusted(rootBefore.value, true, owners([])) {
      return Err(FS_METADATA), [];
    }
    r, stack := ReadBelow(p, root, parts, limit, owners);
    if r.Err? {
      return;
    }
    var rootAfter := p.Fstat(root);
    if rootAfter.Err? {
      return Err(rootAfter.error), stack;
    }
    if rootBefore.value != rootAfter.value {
      return Err(FS_CHANGED), stack;
    }
  }

  /**
   `_read_at`: computes `Reads`, and on every path out, failures included, closes
   exactly the descriptors it opened.
   */
  method ReadHeld(p: Process, root: nat, parts: seq<string>, limit: int, owners: Owners) returns (r: Result<seq<byte>, Error>)
    requires p.Valid() && root in p.descriptors
    modifies p
    ensures p.Valid() && p.descriptors == old(p.descriptors)
    ensures var run := Reads(p.env, old(p.clock), old(p.descriptors)[root], parts, limit, owners);
            p.clock == run.time && r == Bytes(run)
  {
    if !Components(parts) {
      return Err(FS_COMPONENTS);
    }
    if !(0 <= limit <= MAX_READ) {
      return Err(FS_BOUND);
    }
    var stack;
    r, stack := Guarded(p, root, parts, limit, owners);
    CloseAll(p, stack, p.descriptors);
  }

  /** Leaving the `with` block: the exit stack runs from the top. */
  method CloseAll(p: Process, stack: seq<nat>, ghost full: map<nat, Inode>)
    requires p.Valid() && p.descriptors == full
    requires forall i, j :: 0 <= i < j < |stack| ==> stack[i] != stack[j]
    requires forall f :: f in stack ==> f in p.descriptors
    modifies p`descriptors
    ensures p.Valid() && p.descriptors == map f | f in full && f !in stack :: full[f]
  {
    var k := |stack|;
    while k > 0
      invariant 0 <= k <= |stack| && p.Valid()
      invariant p.descriptors == map f | f in full && f !in stack[k..] :: full[f]
    {
      k := k - 1;
      assert stack[k..] == [stack[k]] + stack[k + 1..];
      p.Close(stack[k]);
    }
    assert stack[0..] == stack;
  }

  // ----- The public readers -----

  const SERVICE := "wazuh-dashboard"

  datatype User = User(name: string, uid: nat, gid: nat)
  datatype Group = Group(name: string, gid: nat)

  /** What the readers ask the host: the platform's features, the caller, and the service's entries. */
  datatype Host = Host(supported: bool, euid: nat, user: Option<User>, group: Option<Group>)

  /** `_platform`: the diagnostic, if there is one. */
  function Platform(host: Host): Option<string> {
    if !host.supported then Some("FS_PLATFORM") else if host.euid != 0 then Some("FS_ROOT_REQUIRED") else None
  }

  /** `_identity`: the service account, never root's. */
  function Identity(host: Host): Result<(nat, nat), string> {
    if host.user.None? || host.group.None? then Err("FS_SERVICE_IDENTITY")
    else
      var user, group := host.user.value, host.group.value;
      if user.name == group.name == SERVICE && user.uid > 0 && group.gid > 0 && user.gid == group.gid
      then Ok((user.uid, group.gid)) else Err("FS_SERVICE_IDENTITY")
  }

  /** `_os_error_code`: failures leave the library as fixed codes only. */
  function Static(e: Error): string {
    match e
    case Operator(code) => code
    case Os(ENOENT) => "FS_MISSING"
    case Os(EACCES) => "FS_ACCESS"
    case Os(EPERM) => "FS_ACCESS"
    case Os(ELOOP) => "FS_SYMLINK"
    case Os(ENOTDIR) => "FS_NOT_DIRECTORY"
    case Os(EIO) => "FS_IO"
  }

  /** What leaves the library, and when. */
  datatype Load<+R> = Load(time: nat, result: Result<R, string>)

  function Reported(run: Run<Reading>): Load<seq<byte>> {
    Load(run.time, if run.result.Ok? then Ok(run.result.value.data) else Err(Static(run.result.error)))
  }

  /** `_read_root` */
  function ReadsRoot(env: Env, t: nat, parts: seq<string>, limit: int, owners: Owners): (r: Run<Reading>)
    ensures r.time >= t
  {
    if !Components(parts) then Run(t, Err(FS_COMPONENTS))
    else if !(0 <= limit <= MAX_READ) then Run(t, Err(FS_BOUND))
    else
      var t1 := Next(env.gap, t);
      var root := OpenRootAt(env, t1);
      if root.Err? then Run(t1, Err(root.error)) else Reads(env, t1, root.value, parts, limit, owners)
  }

  method ReadRoot(p: Process, parts: seq<string>, limit: int, owners: Owners) returns (r: Result<seq<byte>, Error>)
    requires p.Valid()
    modifies p
    ensures p.Valid() && p.descriptors == old(p.descriptors)
    ensures var run := ReadsRoot(p.env, old(p.clock), parts, limit, owners); p.clock == run.time && r == Bytes(run)
  {
    if !Components(parts) {
      return Err(FS_COMPONENTS);
    }
    if !(0 <= limit <= MAX_READ) {
      return Err(FS_BOUND);
    }
    var root := p.OpenRoot();
    if root.Err? {
      return Err(root.error);
    }
    r := ReadHeld(p, root.value, parts, limit, owners);
    p.Close(root.value);
  }

  /** The node that a path leads to in one file-system state, if every node on the way is trusted. */
  function LeafAt(fs: Fs, parent: Inode, parts: seq<string>, i: nat, owners: Owners): Option<Node>
    requires i < |parts|
    decreases |parts| - i
  {
    if parent !in fs || parts[i] !in fs[parent].entries then None
    else
      var n := fs[parent].entries[parts[i]];
      if n !in fs || !Trusted(fs[n].stat, !Leaf(parts, i), owners(parts[..i + 1])) then None
      else if Leaf(parts, i) then Some(fs[n])
      else LeafAt(fs, n, parts, i + 1, owners)
  }

  /** Its content. */
  function ContentAt(fs: Fs, parent: Inode, parts: seq<string>, i: nat, owners: Owners): Option<seq<byte>>
    requires i < |parts|
  {
    var leaf := LeafAt(fs, parent, parts, i, owners);
    if leaf.Some? then Some(leaf.value.data) else None
  }

  lemma {:induction false} SnapshotGivesContent(fs: Fs, parent: Inode, parts: seq<string>, i: nat, owners: Owners, reading: Reading)
    requires i < |parts| && SnapshotIn(fs, parent, parts, i, owners, reading)
    ensures ContentAt(fs, parent, parts, i, owners) == Some(reading.data)
    decreases |parts| - i
  {
    if !Leaf(parts, i) {
      SnapshotGivesContent(fs, fs[parent].entries[parts[i]], parts, i + 1, owners, Reading(reading.data, reading.chain[1..]));
    }
  }

  /** What a fixed path holds over time, as seen from the root. */
  function PathContent(env: Env, parts: seq<string>, owners: Owners): nat -> Option<seq<byte>>
    requires parts != []
  {
    (t: nat) => ContentAt(env.history(t), env.root, parts, 0, owners)
  }

  lemma RootReadIsSnapshot(env: Env, t: nat, parts: seq<string>, limit: int, owners: Owners) returns (instant: nat)
    requires Identified(env) && NoStampReuse(env)
    requires ReadsRoot(env, t, parts, limit, owners).result.Ok?
    ensures var run := ReadsRoot(env, t, parts, limit, owners);
            t < instant <= run.time && parts != []
            && PathContent(env, parts, owners)(instant) == Some(run.result.value.data)
            && |run.result.value.data| <= limit
  {
    var run := ReadsRoot(env, t, parts, limit, owners);
    ReadIsSnapshot(env, Next(env.gap, t), env.root, parts, limit, owners);
    instant :| Next(env.gap, t) < instant <= run.time
               && SnapshotIn(env.history(instant), env.root, parts, 0, owners, run.result.value);
    SnapshotGivesContent(env.history(instant), env.root, parts, 0, owners, run.result.value);
  }
}
