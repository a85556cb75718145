/**
 The part of Linux that the broker-TLS readers use. Other processes may change
 the file system between any two calls: `history` gives its state at every time, `gap`
 how many of those states pass before the next call, `fault` which calls fail and
 `quota` how much a read returns. Nothing is assumed about any of them.
 */
module Kernel {
  import opened Common

  datatype Inode = Inode(dev: nat, ino: nat)

  datatype Kind = Directory | Regular | Symlink | Special

  /** The fields of `os.stat_result` that the readers compare; `kind` and `perm` make up the mode. */
  datatype Stat = Stat(inode: Inode, kind: Kind, perm: bv12, uid: nat, gid: nat, nlink: nat, size: nat,
                       mtimeNs: int, ctimeNs: int)

  datatype Node = Node(stat: Stat, data: seq<byte>, entries: map<string, Inode>)

  type Fs = map<Inode, Node>

  datatype Errno = ENOENT | EACCES | EPERM | ELOOP | ENOTDIR | EIO

  /** A fixed diagnostic of the operator library, or an `OSError`. */
  datatype Error = Operator(code: string) | Os(errno: Errno)

  datatype Env = Env(root: Inode, history: nat -> Fs, gap: nat -> nat, fault: nat -> Option<Errno>, quota: nat -> nat)

  /** Every node carries its own identity. */
  ghost predicate Identified(env: Env) {
    forall t, n :: n in env.history(t) ==> env.history(t)[n].stat.inode == n
  }

  function FstatAt(env: Env, t: nat, n: Inode): Result<Stat, Error> {
    if env.fault(t).Some? then Err(Os(env.fault(t).value))
    else if n in env.history(t) then Ok(env.history(t)[n].stat)
    else Err(Os(EIO))
  }

  function LookupAt(env: Env, t: nat, dir: Inode, name: string): Result<Inode, Error> {
    var fs := env.history(t);
    if env.fault(t).Some? then Err(Os(env.fault(t).value))
    else if dir in fs && name in fs[dir].entries && fs[dir].entries[name] in fs then Ok(fs[dir].entries[name])
    else Err(Os(ENOENT))
  }

  /** `os.stat(name, dir_fd=dir, follow_symlinks=False)` */
  function StatAt(env: Env, t: nat, dir: Inode, name: string): Result<Stat, Error> {
    var found := LookupAt(env, t, dir, name);
    if found.Err? then Err(found.error) else Ok(env.history(t)[found.value].stat)
  }

  /** `os.open(name, O_RDONLY | O_NOFOLLOW ..., dir_fd=dir)`, with `O_DIRECTORY` when `directory` holds. */
  function OpenAt(env: Env, t: nat, dir: Inode, name: string, directory: bool): Result<Inode, Error> {
    var found := LookupAt(env, t, dir, name);
    if found.Err? then found
    else
      var kind := env.history(t)[found.value].stat.kind;
      if kind == Symlink then Err(Os(ELOOP))
      else if directory && kind != Directory then Err(Os(ENOTDIR))
      else found
  }

  /** `os.open('/', O_DIRECTORY ...)` */
  function OpenRootAt(env: Env, t: nat): Result<Inode, Error> {
    var fs := env.history(t);
    if env.fault(t).Some? then Err(Os(env.fault(t).value))
    else if env.root in fs && fs[env.root].stat.kind == Directory then Ok(env.root)
    else Err(Os(ENOTDIR))
  }

  /** `os.read` of at most `amount` bytes from offset `pos`; empty only at the end of the file. */
  function ReadAt(env: Env, t: nat, n: Inode, pos: nat, amount: nat): (r: Result<seq<byte>, Error>)
    requires amount > 0
    ensures r.Ok? ==> |r.value| <= amount
  {
    if env.fault(t).Some? then Err(Os(env.fault(t).value))
    else if n !in env.history(t) then Err(Os(EIO))
    else
      var data := env.history(t)[n].data;
      if pos >= |data| then Ok([])
      else
        var most := if amount < |data| - pos then amount else |data| - pos;
        var count := if env.quota(t) < 1 then 1 else if env.quota(t) < most then env.quota(t) else most;
        Ok(data[pos..pos + count])
  }

  /** One process: its clock and its open descriptors. */
  class Process {
    const env: Env
    var clock: nat
    var descriptors: map<nat, Inode>
    var offsets: map<nat, nat>
    var unused: nat

    ghost predicate Valid()
      reads this
    {
      forall f :: f in descriptors ==> f < unused && f in offsets
    }

    constructor (env: Env)
      ensures Valid() && this.env == env && clock == 0 && descriptors == map[]
    {
      this.env := env;
      clock, descriptors, offsets, unused := 0, map[], map[], 0;
    }

    method Fstat(fd: nat) returns (r: Result<Stat, Error>)
      requires Valid() && fd in descriptors
      modifies this`clock
      ensures clock == Next(env.gap, old(clock)) && r == FstatAt(env, clock, descriptors[fd])
    {
      clock := Next(env.gap, clock);
      r := FstatAt(env, clock, descriptors[fd]);
    }

    method Stat(dir: nat, name: string) returns (r: Result<Stat, Error>)
      requires Valid() && dir in descriptors
      modifies this`clock
      ensures clock == Next(env.gap, old(clock)) && r == StatAt(env, clock, descriptors[dir], name)
    {
      clock := Next(env.gap, clock);
      r := StatAt(env, clock, descriptors[dir], name);
    }

    /** The descriptor table after opening `n`. */
    ghost predicate Opened(before: map<nat, Inode>, fd: nat, n: Inode)
      reads this
    {
      fd !in before && descriptors == before[fd := n] && fd in offsets && offsets[fd] == 0
    }

    method Allocate(n: Inode) returns (fd: nat)
      requires Valid()
      modifies this`descriptors, this`offsets, this`unused
      ensures Valid() && Opened(old(descriptors), fd, n)
    {
      fd := unused;
      descriptors, offsets, unused := descriptors[fd := n], offsets[fd := 0], unused + 1;
    }

    method Open(dir: nat, name: string, directory: bool) returns (r: Result<nat, Error>)
      requires Valid() && dir in descriptors
      modifies this
      ensures Valid() && clock == Next(env.gap, old(clock))
      ensures var found := OpenAt(env, clock, old(descriptors)[dir], name, directory);
              if found.Ok? then r.Ok? && Opened(old(descriptors), r.value, found.value)
              else r == Err(found.error) && descriptors == old(descriptors)
    {
      clock := Next(env.gap, clock);
      var found := OpenAt(env, clock, descriptors[dir], name, directory);
      if found.Err? {
        return Err(found.error);
      }
      var fd := Allocate(found.value);
      return Ok(fd);
    }

    method OpenRoot() returns (r: Result<nat, Error>)
      requires Valid()
      modifies this
      ensures Valid() && clock == Next(env.gap, old(clock))
      ensures var found := OpenRootAt(env, clock);
              if found.Ok? then r.Ok? && Opened(old(descriptors), r.value, found.value)
              else r == Err(found.error) && descriptors == old(descriptors)
    {
      clock := Next(env.gap, clock);
      var found := OpenRootAt(env, clock);
      if found.Err? {
        return Err(found.error);
      }
      var fd := Allocate(found.value);
      return Ok(fd);
    }

    method Read(fd: nat, amount: nat) returns (r: Result<seq<byte>, Error>)
      requires Valid() && fd in descriptors && amount > 0
      modifies this`clock, this`offsets
      ensures Valid() && clock == Next(env.gap, old(clock))
      ensures r == ReadAt(env, clock, descriptors[fd], old(offsets[fd]), amount)
      ensures fd in offsets && offsets[fd] == old(offsets[fd]) + if r.Ok? then |r.value| else 0
    {
      clock := Next(env.gap, clock);
      r := ReadAt(env, clock, descriptors[fd], offsets[fd], amount);
      if r.Ok? {
        offsets := offsets[fd := offsets[fd] + |r.value|];
      }
    }

    method Close(fd: nat)
      requires Valid() && fd in descriptors
      modifies this`descriptors
      ensures Valid() && descriptors == old(descriptors) - {fd}
    {
      descriptors := descriptors - {fd};
    }
  }
}
