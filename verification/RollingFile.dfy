/** `RollingFileAppender`: a log file with a limited size and a limited number of numbered backups. The
    file system is a map from names to contents with the POSIX meaning of open, rename and remove; a
    content is the sequence of messages written. */
module RollingFile {
  import opened Text

  type Content = seq<string>
  type FileSystem = map<string, Content>

  function Size(c: Content): nat {
    if c == [] then 0 else |c[0]| + Size(c[1..])
  }

  lemma {:induction false} SizeAppend(a: Content, b: Content)
    ensures Size(a + b) == Size(a) + Size(b)
    decreases |a|
  {
    if a == [] {
      assert a + b == b;
    } else {
      assert (a + b)[1..] == a[1..] + b;
      SizeAppend(a[1..], b);
    }
  }

  /** What the file holds, byte for byte. */
  function Bytes(c: Content): string {
    if c == [] then "" else Bytes(c[..|c| - 1]) + c[|c| - 1]
  }

  lemma {:induction false} SizeOf(m: string)
    ensures Size([m]) == |m|
  {
    assert [m][1..] == [];
  }

  /** The size of a file is the number of its bytes. */
  lemma {:induction false} SizeIsBytes(c: Content)
    ensures Size(c) == |Bytes(c)|
    decreases |c|
  {
    if c != [] {
      var init, last := c[..|c| - 1], c[|c| - 1];
      SizeIsBytes(init);
      SizeOf(last);
      assert c == init + [last];
      SizeAppend(init, [last]);
    }
  }

  lemma {:induction false} BytesAppend(a: Content, b: Content)
    ensures Bytes(a + b) == Bytes(a) + Bytes(b)
    decreases |b|
  {
    if b == [] {
      assert a + b == a;
    } else {
      var c := a + b;
      assert c[..|c| - 1] == a + b[..|b| - 1] && c[|c| - 1] == b[|b| - 1];
      BytesAppend(a, b[..|b| - 1]);
    }
  }

  function Get(fs: FileSystem, name: string): Option<Content> {
    if name in fs then Some(fs[name]) else None
  }

  /** The messages in a file; none if there is no such file. */
  function Messages(fs: FileSystem, name: string): Content {
    if name in fs then fs[name] else []
  }

  // ----- POSIX -----

  function Remove(fs: FileSystem, name: string): FileSystem {
    fs - {name}
  }

  /** A missing source leaves everything as it is; an existing target is replaced. */
  function Rename(fs: FileSystem, from: string, to: string): FileSystem {
    if from !in fs then fs else (fs - {from})[to := fs[from]]
  }

  /** `open` with O_CREAT, and O_TRUNC if the appender does not append. */
  function Open(fs: FileSystem, name: string, trunc: bool): FileSystem {
    if name in fs && !trunc then fs else fs[name := []]
  }

  // ----- names -----

  function Backup(file: string, i: nat): string {
    file + "." + Dec(i)
  }

  lemma {:induction false} BackupsDiffer(file: string, i: nat, j: nat)
    ensures Backup(file, i) == Backup(file, j) ==> i == j
    ensures Backup(file, i) != file
  {
    assert Backup(file, i)[|file| + 1..] == Dec(i);
    assert Backup(file, j)[|file| + 1..] == Dec(j);
    assert |Backup(file, i)| > |file|;
    if Dec(i) == Dec(j) {
      DecInjective(i, j);
    }
  }

  /** `seekp(n)` and a write: the buffer is overwritten from `n` on and keeps its tail. */
  function Overwrite(buf: string, n: nat, text: string): string
    requires n <= |buf|
  {
    var end := n + |text|;
    buf[..n] + text + if end < |buf| then buf[end..] else []
  }

  /** Rewriting the number behind the name gives the name of another backup, whatever was there before. */
  lemma {:induction false} RewrittenName(buf: string, file: string, i: nat)
    requires '\0' !in file && |file| + 1 <= |buf| && buf[..|file| + 1] == file + "."
    ensures var b := Overwrite(buf, |file| + 1, Dec(i) + ['\0']);
            CStr(b) == Backup(file, i) && |file| + 1 <= |b| && b[..|file| + 1] == file + "."
  {
    var b := Overwrite(buf, |file| + 1, Dec(i) + ['\0']);
    var n := |file| + 1 + |Dec(i)| + 1;
    var tail := if n < |buf| then buf[n..] else [];
    assert b == Backup(file, i) + ['\0'] + tail;
    assert '\0' !in Backup(file, i);
    CStrCuts(Backup(file, i), tail);
  }

  // ----- rolling over -----

  /** The renames of the loop, from `file.i` down to `file.2`. */
  function ShiftDown(fs: FileSystem, file: string, i: nat): FileSystem
    decreases i
  {
    if i <= 1 then fs else ShiftDown(Rename(fs, Backup(file, i - 1), Backup(file, i)), file, i - 1)
  }

  function RollOver(fs: FileSystem, file: string, max: nat, trunc: bool): FileSystem {
    if max == 0 then Open(fs, file, trunc)
    else
      var shifted := ShiftDown(Remove(fs, Backup(file, max)), file, max);
      Open(Rename(shifted, file, Backup(file, 1)), file, trunc)
  }

  /** `name` is none of the backups 1 to `i`. */
  predicate Other(file: string, name: string, i: nat) {
    forall j | 1 <= j <= i :: name != Backup(file, j)
  }

  /** The renames move every backup up by one, gaps included, because the target of each rename is a name
      that is free. */
  lemma {:induction false} ShiftDownShifts(fs: FileSystem, file: string, i: nat)
    requires i >= 1 && Backup(file, i) !in fs
    ensures forall j | 2 <= j <= i :: Get(ShiftDown(fs, file, i), Backup(file, j)) == Get(fs, Backup(file, j - 1))
    ensures Backup(file, 1) !in ShiftDown(fs, file, i)
    ensures forall name | Other(file, name, i) :: Get(ShiftDown(fs, file, i), name) == Get(fs, name)
    decreases i
  {
    hide Backup;
    if i > 1 {
      var from, to := Backup(file, i - 1), Backup(file, i);
      var fs' := Rename(fs, from, to);
      BackupsDiffer(file, i - 1, i);
      ShiftDownShifts(fs', file, i - 1);
      var r := ShiftDown(fs', file, i - 1);
      forall j | 2 <= j <= i ensures Get(r, Backup(file, j)) == Get(fs, Backup(file, j - 1)) {
        if j == i {
          forall k | 1 <= k <= i - 1 ensures to != Backup(file, k) {
            BackupsDiffer(file, i, k);
          }
          assert Other(file, to, i - 1);
        } else {
          BackupsDiffer(file, j - 1, i - 1);
          BackupsDiffer(file, j - 1, i);
        }
      }
      forall name | Other(file, name, i) ensures Get(r, name) == Get(fs, name) {
        assert Other(file, name, i - 1);
      }
    }
  }

  /** Exactly one step: the last backup is gone, every other one and the current file have moved up by
      one, the current file is empty and nothing else has changed. */
  ghost predicate Shifted(fs: FileSystem, fs': FileSystem, file: string, max: nat) {
    && Get(fs', file) == Some([])
    && Get(fs', Backup(file, 1)) == Get(fs, file)
    && (forall i | 2 <= i <= max :: Get(fs', Backup(file, i)) == Get(fs, Backup(file, i - 1)))
    && (forall name | name != file && Other(file, name, max) :: Get(fs', name) == Get(fs, name))
  }

  lemma {:induction false} RollOverShifts(fs: FileSystem, file: string, max: nat, trunc: bool)
    requires max >= 1
    ensures Shifted(fs, RollOver(fs, file, max, trunc), file, max)
  {
    hide Backup, ShiftDown;
    var removed := Remove(fs, Backup(file, max));
    ShiftDownShifts(removed, file, max);
    var shifted := ShiftDown(removed, file, max);
    var r := RollOver(fs, file, max, trunc);
    forall i | 1 <= i <= max ensures Backup(file, i) != file && (i < max ==> Backup(file, i) != Backup(file, max)) {
      BackupsDiffer(file, i, max);
    }
    assert Other(file, file, max);
    assert Get(shifted, file) == Get(removed, file) == Get(fs, file);
    forall i | 2 <= i <= max ensures Get(r, Backup(file, i)) == Get(fs, Backup(file, i - 1)) {
      BackupsDiffer(file, i, 1);
    }
  }

  // ----- appending -----

  function Append(fs: FileSystem, file: string, max: nat, limit: nat, trunc: bool, m: string): FileSystem {
    var written := fs[file := Messages(fs, file) + [m]];
    if Size(written[file]) >= limit then RollOver(written, file, max, trunc) else written
  }

  /** What one append does, told from the bytes: below the limit the message is added and nothing else
      changes; otherwise the files are shifted, or, without backups, the file is emptied if it is truncated
      on opening and just grows if not. */
  ghost predicate Appended(fs: FileSystem, fs': FileSystem, file: string, max: nat, limit: nat, trunc: bool, m: string) {
    var written := fs[file := Messages(fs, file) + [m]];
    if |Bytes(Messages(fs, file))| + |m| < limit then fs' == written
    else if max >= 1 then Shifted(written, fs', file, max)
    else fs' == if trunc then fs[file := []] else written
  }

  lemma {:induction false} AppendInBytes(fs: FileSystem, file: string, max: nat, limit: nat, trunc: bool, m: string)
    ensures Appended(fs, Append(fs, file, max, limit, trunc, m), file, max, limit, trunc, m)
  {
    hide Shifted, Size, Bytes, ShiftDown;
    var before := Messages(fs, file);
    SizeIsBytes(before);
    SizeAppend(before, [m]);
    SizeOf(m);
    if max >= 1 {
      RollOverShifts(fs[file := before + [m]], file, max, trunc);
    }
  }

  function AppendAll(fs: FileSystem, file: string, max: nat, limit: nat, trunc: bool, log: Content): FileSystem
    decreases |log|
  {
    if log == [] then fs
    else Append(AppendAll(fs, file, max, limit, trunc, log[..|log| - 1]), file, max, limit, trunc, log[|log| - 1])
  }

  /** What is on disk, oldest first: backups `i` to 1, then the current file. */
  function Chain(fs: FileSystem, file: string, i: nat): Content {
    if i == 0 then Messages(fs, file) else Messages(fs, Backup(file, i)) + Chain(fs, file, i - 1)
  }

  /** A backup reached the limit with its last message, and not before. */
  predicate FullBackup(c: Content, limit: nat) {
    c != [] && Size(c) >= limit && Size(c[..|c| - 1]) < limit
  }

  predicate IsSuffix(s: Content, log: Content) {
    |s| <= |log| && log[|log| - |s|..] == s
  }

  /** What holds after every run: the files hold the most recent messages in order and whole, the current
      file is below the limit, the backups are full and without gaps, and messages are lost only once all
      backups exist. */
  ghost predicate Safe(fs: FileSystem, file: string, max: nat, limit: nat, log: Content) {
    && file in fs && Size(fs[file]) < limit
    && IsSuffix(Chain(fs, file, max), log)
    && (forall i | 1 <= i <= max && Backup(file, i) in fs :: FullBackup(fs[Backup(file, i)], limit))
    && (forall i | 2 <= i <= max && Backup(file, i) in fs :: Backup(file, i - 1) in fs)
    && (Chain(fs, file, max) != log ==> forall i | 1 <= i <= max :: Backup(file, i) in fs)
  }

  lemma {:induction false} ChainShifted(fs: FileSystem, fs': FileSystem, file: string, max: nat, i: nat)
    requires Shifted(fs, fs', file, max) && 1 <= i <= max
    ensures Chain(fs', file, i) == Chain(fs, file, i - 1)
    decreases i
  {
    hide Backup;
    if i == 1 {
      assert Chain(fs', file, 0) == [];
      assert Messages(fs', Backup(file, 1)) == Messages(fs, file);
    } else {
      ChainShifted(fs, fs', file, max, i - 1);
      assert Get(fs', Backup(file, i)) == Get(fs, Backup(file, i - 1));
    }
  }

  /** Writing a message to the current file appends it to the chain. */
  lemma {:induction false} ChainWritten(fs: FileSystem, file: string, m: string, i: nat)
    ensures Chain(fs[file := Messages(fs, file) + [m]], file, i) == Chain(fs, file, i) + [m]
    decreases i
  {
    hide Backup;
    if i > 0 {
      ChainWritten(fs, file, m, i - 1);
      BackupsDiffer(file, i, i);
      var w := fs[file := Messages(fs, file) + [m]];
      assert Messages(w, Backup(file, i)) == Messages(fs, Backup(file, i));
      assert Messages(fs, Backup(file, i)) + (Chain(fs, file, i - 1) + [m]) == Chain(fs, file, i) + [m];
    }
  }

  lemma {:induction false} SuffixSnoc(s: Content, log: Content, m: string)
    requires IsSuffix(s, log)
    ensures IsSuffix(s + [m], log + [m])
    ensures s != log ==> s + [m] != log + [m]
  {
    assert (log + [m])[|log| - |s|..] == log[|log| - |s|..] + [m];
    if s + [m] == log + [m] {
      assert s == (s + [m])[..|s|] == (log + [m])[..|log|] == log;
    }
  }

  lemma {:induction false} SuffixTail(a: Content, b: Content, log: Content)
    requires IsSuffix(a + b, log)
    ensures IsSuffix(b, log)
  {
    assert log[|log| - |b|..] == log[|log| - |a + b|..][|a|..] == b;
  }

  /** A message that stays below the limit. */
  lemma {:induction false} SafeWritten(fs: FileSystem, file: string, max: nat, limit: nat, log: Content, m: string)
    requires Safe(fs, file, max, limit, log) && Size(fs[file] + [m]) < limit
    ensures Safe(fs[file := fs[file] + [m]], file, max, limit, log + [m])
  {
    hide Backup, Chain, Size, FullBackup, IsSuffix;
    forall i ensures Backup(file, i) != file {
      BackupsDiffer(file, i, i);
    }
    ChainWritten(fs, file, m, max);
    SuffixSnoc(Chain(fs, file, max), log, m);
  }

  /** A message that reaches the limit. */
  lemma {:induction false} SafeRolled(fs: FileSystem, file: string, max: nat, limit: nat, trunc: bool, log: Content, m: string)
    requires Safe(fs, file, max, limit, log) && Size(fs[file] + [m]) >= limit && max >= 1 && limit >= 1
    ensures Safe(RollOver(fs[file := fs[file] + [m]], file, max, trunc), file, max, limit, log + [m])
  {
    hide Backup, Chain, Size, IsSuffix, RollOver, Shifted;
    var w := fs[file := fs[file] + [m]];
    var r := RollOver(w, file, max, trunc);
    assert FullBackup(w[file], limit) by {
      assert (fs[file] + [m])[..|fs[file]|] == fs[file];
    }
    hide FullBackup;
    RollOverShifts(w, file, max, trunc);
    EmptySuffix(log);
    RolledChain(w, r, file, max);
    ChainWritten(fs, file, m, max);
    SuffixSnoc(Chain(fs, file, max), log, m);
    SuffixTail(Messages(w, Backup(file, max)), Chain(r, file, max), log + [m]);
    RolledBackups(fs, w, r, file, max, limit);
    if Chain(r, file, max) != log + [m] {
      RolledComplete(fs, w, r, file, max, limit, log, m);
    }
  }

  /** Rolling over drops what is in the last backup from the chain, and nothing else. */
  lemma {:induction false} RolledChain(w: FileSystem, r: FileSystem, file: string, max: nat)
    requires max >= 1 && Shifted(w, r, file, max)
    ensures Chain(w, file, max) == Messages(w, Backup(file, max)) + Chain(r, file, max)
    ensures Get(r, file) == Some([])
  {
    hide Backup;
    ChainShifted(w, r, file, max, max);
  }

  lemma {:induction false} RolledBackups(fs: FileSystem, w: FileSystem, r: FileSystem, file: string, max: nat, limit: nat)
    requires file in fs && file in w && w == fs[file := w[file]] && Shifted(w, r, file, max) && FullBackup(w[file], limit)
    requires forall i | 1 <= i <= max && Backup(file, i) in fs :: FullBackup(fs[Backup(file, i)], limit)
    requires forall i | 2 <= i <= max && Backup(file, i) in fs :: Backup(file, i - 1) in fs
    ensures forall i | 1 <= i <= max && Backup(file, i) in r :: FullBackup(r[Backup(file, i)], limit)
    ensures forall i | 2 <= i <= max && Backup(file, i) in r :: Backup(file, i - 1) in r
  {
    hide Backup, FullBackup;
    forall i: nat ensures Backup(file, i) != file {
      BackupsDiffer(file, i, i);
    }
    forall i | 1 <= i <= max && Backup(file, i) in r ensures FullBackup(r[Backup(file, i)], limit) {
      if i > 1 {
        assert Get(r, Backup(file, i)) == Get(w, Backup(file, i - 1)) == Get(fs, Backup(file, i - 1));
      }
    }
    forall i | 2 <= i <= max && Backup(file, i) in r ensures Backup(file, i - 1) in r {
      assert Get(r, Backup(file, i)) == Get(w, Backup(file, i - 1)) == Get(fs, Backup(file, i - 1));
      if i > 2 {
        assert Get(r, Backup(file, i - 1)) == Get(w, Backup(file, i - 2)) == Get(fs, Backup(file, i - 2));
      }
    }
  }

  /** Messages are missing after a roll-over only if every backup is there. */
  lemma {:induction false} RolledComplete(fs: FileSystem, w: FileSystem, r: FileSystem, file: string, max: nat, limit: nat, log: Content, m: string)
    requires Safe(fs, file, max, limit, log) && max >= 1
    requires w == fs[file := fs[file] + [m]] && Shifted(w, r, file, max)
    requires Chain(w, file, max) == Messages(w, Backup(file, max)) + Chain(r, file, max)
    requires Chain(w, file, max) == Chain(fs, file, max) + [m]
    requires Chain(r, file, max) != log + [m]
    ensures forall i | 1 <= i <= max :: Backup(file, i) in r
  {
    var last := Backup(file, max);
    hide Backup, Chain, FullBackup, IsSuffix, Size;
    forall i: nat ensures Backup(file, i) != file {
      BackupsDiffer(file, i, i);
    }
    if last !in fs {
      assert false;
    }
    AllBelow(fs, file, max);
    forall i | 1 <= i <= max ensures Backup(file, i) in r {
      if i > 1 {
        assert Get(r, Backup(file, i)) == Get(w, Backup(file, i - 1)) == Get(fs, Backup(file, i - 1));
      }
    }
  }

  lemma {:induction false} AllBelow(fs: FileSystem, file: string, i: nat)
    requires forall k | 2 <= k <= i && Backup(file, k) in fs :: Backup(file, k - 1) in fs
    requires i >= 1 ==> Backup(file, i) in fs
    ensures forall k | 1 <= k <= i :: Backup(file, k) in fs
    decreases i
  {
    hide Backup;
    if i > 1 {
      AllBelow(fs, file, i - 1);
    }
  }

  /** Every append keeps it. */
  lemma {:induction false} AppendSafe(fs: FileSystem, file: string, max: nat, limit: nat, trunc: bool, log: Content, m: string)
    requires Safe(fs, file, max, limit, log) && max >= 1 && limit >= 1
    ensures Safe(Append(fs, file, max, limit, trunc, m), file, max, limit, log + [m])
  {
    assert file in fs;
    hide Safe, Backup, RollOver, Size;
    if Size(fs[file] + [m]) < limit {
      SafeWritten(fs, file, max, limit, log, m);
    } else {
      SafeRolled(fs, file, max, limit, trunc, log, m);
    }
  }

  lemma {:induction false} InitiallySafe(fs: FileSystem, file: string, max: nat, limit: nat)
    requires limit >= 1
    requires Get(fs, file) == Some([]) && forall i | 1 <= i <= max :: Backup(file, i) !in fs
    ensures Safe(fs, file, max, limit, [])
  {
    hide Backup;
    EmptyChain(fs, file, max);
  }

  /** Safety over every run: whatever is logged, from a directory with an empty log file and no backup. */
  lemma {:induction false} RunSafe(fs: FileSystem, file: string, max: nat, limit: nat, trunc: bool, log: Content)
    requires max >= 1 && limit >= 1
    requires Get(fs, file) == Some([]) && forall i | 1 <= i <= max :: Backup(file, i) !in fs
    ensures Safe(AppendAll(fs, file, max, limit, trunc, log), file, max, limit, log)
    decreases |log|
  {
    hide Backup, Safe, Append;
    if log == [] {
      InitiallySafe(fs, file, max, limit);
    } else {
      var before := log[..|log| - 1];
      RunSafe(fs, file, max, limit, trunc, before);
      assert log == before + [log[|log| - 1]];
      AppendSafe(AppendAll(fs, file, max, limit, trunc, before), file, max, limit, trunc, before, log[|log| - 1]);
    }
  }

  /** The same in bytes: the current file is below the limit, every backup reached it with its last
      message only, and the bytes on disk are the last ones logged. */
  lemma {:induction false} RunSafeInBytes(fs: FileSystem, file: string, max: nat, limit: nat, trunc: bool, log: Content)
    requires max >= 1 && limit >= 1
    requires Get(fs, file) == Some([]) && forall i | 1 <= i <= max :: Backup(file, i) !in fs
    ensures var r := AppendAll(fs, file, max, limit, trunc, log);
            && file in r && |Bytes(r[file])| < limit
            && (forall i | 1 <= i <= max && Backup(file, i) in r :: FullInBytes(r[Backup(file, i)], limit))
            && exists older: string :: older + Bytes(Chain(r, file, max)) == Bytes(log)
  {
    hide Backup, AppendAll, Chain, Size, Bytes;
    RunSafe(fs, file, max, limit, trunc, log);
    var r := AppendAll(fs, file, max, limit, trunc, log);
    SizeIsBytes(r[file]);
    forall i | 1 <= i <= max && Backup(file, i) in r ensures FullInBytes(r[Backup(file, i)], limit) {
      var c := r[Backup(file, i)];
      assert FullBackup(c, limit);
      SizeIsBytes(c);
      SizeIsBytes(c[..|c| - 1]);
    }
    var chain := Chain(r, file, max);
    var older := log[..|log| - |chain|];
    assert log == older + chain;
    BytesAppend(older, chain);
  }

  predicate FullInBytes(c: Content, limit: nat) {
    c != [] && |Bytes(c)| >= limit && |Bytes(c[..|c| - 1])| < limit
  }

  lemma {:induction false} EmptyChain(fs: FileSystem, file: string, i: nat)
    requires Messages(fs, file) == [] && forall k | 1 <= k <= i :: Backup(file, k) !in fs
    ensures Chain(fs, file, i) == []
    decreases i
  {
    hide Backup;
    if i > 0 {
      EmptyChain(fs, file, i - 1);
    }
  }

  /** Either nothing has been lost or at least `max * limit` bytes of the latest messages are on disk. */
  lemma {:induction false} Retained(fs: FileSystem, file: string, max: nat, limit: nat, log: Content)
    requires Safe(fs, file, max, limit, log)
    ensures Chain(fs, file, max) == log || Size(Chain(fs, file, max)) >= max * limit
  {
    hide Size, FullBackup;
    if Chain(fs, file, max) != log {
      assert forall i | 1 <= i <= max :: Backup(file, i) in fs;
      ChainSize(fs, file, max, limit);
    }
  }

  lemma {:induction false} ChainSize(fs: FileSystem, file: string, i: nat, limit: nat)
    requires forall k | 1 <= k <= i :: Backup(file, k) in fs && FullBackup(fs[Backup(file, k)], limit)
    ensures Size(Chain(fs, file, i)) >= i * limit
    decreases i
  {
    hide Backup;
    if i > 0 {
      ChainSize(fs, file, i - 1, limit);
      SizeAppend(Messages(fs, Backup(file, i)), Chain(fs, file, i - 1));
      assert Size(Messages(fs, Backup(file, i))) >= limit;
      assert i * limit == (i - 1) * limit + limit;
    }
  }

  // ----- without backups -----

  lemma {:induction false} EmptySuffix(log: Content)
    ensures IsSuffix([], log) && Size([]) == 0
  {
  }

  /** With no backup allowed, an appending appender never drops anything and its file grows without limit;
      a truncating one starts again each time the limit is reached. */
  lemma {:induction false} NoBackups(fs: FileSystem, file: string, limit: nat, trunc: bool, log: Content)
    requires Get(fs, file) == Some([]) && limit >= 1
    ensures var r := AppendAll(fs, file, 0, limit, trunc, log);
            file in r && (!trunc ==> r[file] == log) && (trunc ==> IsSuffix(r[file], log) && Size(r[file]) < limit)
    decreases |log|
  {
    if log != [] {
      hide Size, IsSuffix;
      var before, m := log[..|log| - 1], log[|log| - 1];
      NoBackups(fs, file, limit, trunc, before);
      assert log == before + [m];
      var mid := AppendAll(fs, file, 0, limit, trunc, before);
      EmptySuffix(log);
      if trunc {
        SuffixSnoc(mid[file], before, m);
      }
    } else {
      EmptySuffix(log);
    }
  }

  /** So the size limit holds for the current file after every run exactly if there is a backup to roll
      to, or the file is truncated, or the limit has never been reached. */
  lemma {:induction false} LimitHolds(fs: FileSystem, file: string, max: nat, limit: nat, trunc: bool, log: Content)
    requires limit >= 1
    requires Get(fs, file) == Some([]) && forall i | 1 <= i <= max :: Backup(file, i) !in fs
    ensures var r := AppendAll(fs, file, max, limit, trunc, log);
            file in r && (Size(r[file]) < limit <==> max >= 1 || trunc || Size(log) < limit)
  {
    hide Backup, AppendAll, Chain, FullBackup;
    if max >= 1 {
      RunSafe(fs, file, max, limit, trunc, log);
    } else {
      NoBackups(fs, file, limit, trunc, log);
    }
  }

  // ----- the class -----

  class RollingFileAppender {
    const fileName: string
    const trunc: bool
    var maxBackupIndex: nat
    var maxFileSize: nat
    /** The directory as this process sees it. */
    var fs: FileSystem

    ghost predicate Valid()
      reads this
    {
      '\0' !in fileName && fileName in fs
    }

    constructor (name: string, directory: FileSystem, maxFs: nat, maxBi: nat, append: bool)
      requires '\0' !in name
      ensures Valid() && fs == Open(directory, name, !append)
      ensures fileName == name && maxFileSize == maxFs && maxBackupIndex == maxBi && trunc == !append
    {
      fileName, trunc, maxBackupIndex, maxFileSize := name, !append, maxBi, maxFs;
      fs := Open(directory, name, !append);
    }

    /** `roll_over`: one name buffer, rewritten behind the dot for each backup. */
    method RollOverFiles()
      requires Valid()
      modifies this`fs
      ensures fs == RollOver(old(fs), fileName, maxBackupIndex, trunc) && Valid()
    {
      hide Backup;
      if maxBackupIndex > 0 {
        var oldName := FirstName(fileName, maxBackupIndex);
        fs := Remove(fs, CStr(oldName));
        var n := |fileName| + 1;
        var i := maxBackupIndex;
        ghost var goal := ShiftDown(fs, fileName, maxBackupIndex);
        while i > 1
          invariant 1 <= i <= maxBackupIndex
          invariant n <= |oldName| && oldName[..n] == fileName + "." && CStr(oldName) == Backup(fileName, i)
          invariant goal == ShiftDown(fs, fileName, i)
        {
          var newName := oldName;
          RewrittenName(oldName, fileName, i - 1);
          oldName := Overwrite(oldName, n, Dec(i - 1) + ['\0']);
          fs := Rename(fs, CStr(oldName), CStr(newName));
          i := i - 1;
        }
        fs := Rename(fs, fileName, CStr(oldName));
      }
      fs := Open(fs, fileName, trunc);
    }

    /** `_append`: write, look where the file ends, roll over if the limit is reached. */
    method AppendMessage(m: string)
      requires Valid()
      modifies this`fs
      ensures fs == Append(old(fs), fileName, maxBackupIndex, maxFileSize, trunc, m) && Valid()
      ensures Appended(old(fs), fs, fileName, maxBackupIndex, maxFileSize, trunc, m)
    {
      hide RollOver, Appended, Size;
      AppendInBytes(fs, fileName, maxBackupIndex, maxFileSize, trunc, m);
      fs := fs[fileName := fs[fileName] + [m]];
      var offset := Size(fs[fileName]);
      if offset >= maxFileSize {
        RollOverFiles();
      }
    }
  }

  /** The name buffer to begin with. */
  method FirstName(file: string, i: nat) returns (buf: string)
    requires '\0' !in file
    ensures |file| + 1 <= |buf| && buf[..|file| + 1] == file + "." && CStr(buf) == Backup(file, i)
  {
    buf := file + "." + Dec(i) + ['\0'];
    assert buf == Backup(file, i) + ['\0'] + [];
    assert '\0' !in Backup(file, i);
    CStrCuts(Backup(file, i), []);
    assert buf[..|file| + 1] == file + ".";
  }
}
