/** Bounded log files (core/runtime_io.py): `append_bounded` with its rotation, and `tail_lines`.

    File 0 is the log itself and file k its archive with suffix k. Contents are UTF-8 bytes; lines end at
    newlines only. */
module RuntimeIo {
  import opened Prelude

  type Byte = b: int | 0 <= b < 256

  const NEWLINE: Byte := 10

  type Files = map<nat, seq<Byte>>

  function FileAt(files: Files, k: nat): Option<seq<Byte>> {
    if k in files then Some(files[k]) else None
  }

  function Size(files: Files): nat {
    |FileAt(files, 0).GetOr([])|
  }

  /** `line.rstrip('\n')` and one newline. */
  function Record(line: seq<Byte>): seq<Byte>
    ensures Record(line) != []
  {
    Stripped(line) + [NEWLINE]
  }

  function Stripped(line: seq<Byte>): seq<Byte> {
    if line != [] && line[|line| - 1] == NEWLINE then Stripped(line[..|line| - 1]) else line
  }

  // ---------------------------------------------------------------------------------------------------
  // Lines.

  /** The position of the first newline, or the length. */
  function LineEnd(s: seq<Byte>): (i: nat)
    ensures i <= |s| && NEWLINE !in s[..i] && (i < |s| ==> s[i] == NEWLINE)
  {
    if s == [] || s[0] == NEWLINE then 0 else LineEnd(s[1..]) + 1
  }

  function Lines(s: seq<Byte>): seq<seq<Byte>> {
    var i := LineEnd(s);
    if s == [] then []
    else if i == |s| then [s]
    else [s[..i]] + Lines(s[i + 1..])
  }

  function Joined(lines: seq<seq<Byte>>): seq<Byte> {
    if lines == [] then []
    else if |lines| == 1 then lines[0]
    else lines[0] + [NEWLINE] + Joined(lines[1..])
  }

  /** The last `maximum` bytes, without the line they may cut. */
  function Tail(file: seq<Byte>, maximum: nat): seq<Byte> {
    if |file| <= maximum then file
    else
      var raw := file[|file| - maximum..];
      if LineEnd(raw) < |raw| then raw[LineEnd(raw) + 1..] else raw
  }

  /** `tail_lines`: the archives from the oldest, then the log. */
  function TailLines(files: Files, maximum: nat, backups: nat): seq<seq<Byte>> {
    (if backups == 0 then [] else TailLinesFrom(files, maximum, backups, 1))
    + Lines(Tail(FileAt(files, 0).GetOr([]), maximum))
  }

  function TailLinesFrom(files: Files, maximum: nat, backups: nat, k: nat): seq<seq<Byte>>
    requires k <= backups
    decreases backups - k
  {
    (if k == backups then [] else TailLinesFrom(files, maximum, backups, k + 1))
    + Lines(Tail(FileAt(files, k).GetOr([]), maximum))
  }

  // ---------------------------------------------------------------------------------------------------
  // Appending.

  /** What an oversized log from an earlier version is cut down to. */
  function Bounded(file: seq<Byte>, maximum: nat): seq<Byte> {
    var retained := Joined(Lines(Tail(file, maximum))) + [NEWLINE];
    if |retained| > maximum then retained[|retained| - maximum..] else retained
  }

  /** File k after the renames: archive k takes file k - 1, and the oldest archive goes. */
  function ShiftedAt(files: Files, backups: nat, k: nat): Option<seq<Byte>> {
    if k > backups then FileAt(files, k)
    else if k == 0 then if backups == 0 then FileAt(files, 0) else None
    else if k - 1 in files then Some(files[k - 1])
    else if k == backups then FileAt(files, k)
    else None
  }

  function Shifted(files: Files, backups: nat): Files {
    map k: nat | k in files.Keys + (set j: nat | j in files.Keys :: j + 1) && ShiftedAt(files, backups, k).Some?
      :: ShiftedAt(files, backups, k).value
  }

  lemma ShiftedFile(files: Files, backups: nat, k: nat)
    ensures FileAt(Shifted(files, backups), k) == ShiftedAt(files, backups, k)
  {
    if ShiftedAt(files, backups, k).Some? {
      assert k in files || (k > 0 && k - 1 in files.Keys && k == (k - 1) + 1);
    }
  }

  /** An oversized log is cut down before it is rotated. */
  function BeforeRotation(files: Files, maximum: nat): Files {
    if Size(files) > maximum then files[0 := Bounded(files[0], maximum)] else files
  }

  /** The log is rotated when the record does not fit, and the record goes to the end of the log. */
  function Appended(files: Files, raw: seq<Byte>, maximum: nat, backups: nat): Files {
    var ready := if Size(files) + |raw| > maximum then Shifted(BeforeRotation(files, maximum), backups) else files;
    ready[0 := FileAt(ready, 0).GetOr([]) + raw]
  }

  lemma SameFiles(a: Files, b: Files)
    requires forall k: nat :: FileAt(a, k) == FileAt(b, k)
    ensures a == b
  {
    forall k: nat ensures k in a <==> k in b {
      assert FileAt(a, k) == FileAt(b, k);
    }
    forall k: nat | k in a ensures a[k] == b[k] {
      assert FileAt(a, k) == FileAt(b, k);
    }
  }

  class LogDirectory {
    var files: Files

    constructor ()
      ensures files == map[]
    {
      files := map[];
    }

    /** os.replace for each index from the oldest archive down. */
    method Rotate(backups: nat)
      modifies this
      ensures files == Shifted(old(files), backups)
    {
      var index := backups;
      while index > 0
        invariant 0 <= index <= backups
        invariant forall k: nat :: k > index ==> FileAt(files, k) == ShiftedAt(old(files), backups, k)
        invariant forall k: nat :: k < index ==> FileAt(files, k) == FileAt(old(files), k)
        invariant FileAt(files, index) == if index == backups then FileAt(old(files), index) else None
      {
        var source := index - 1;
        ghost var before := files;
        assert FileAt(files, source) == FileAt(old(files), source);
        if source in files {
          files := files[index := files[source]] - {source};
        }
        assert forall k: nat :: k != index && k != source ==> FileAt(files, k) == FileAt(before, k);
        index := index - 1;
      }
      forall k: nat ensures FileAt(files, k) == FileAt(Shifted(old(files), backups), k) {
        ShiftedFile(old(files), backups, k);
      }
      SameFiles(files, Shifted(old(files), backups));
    }

    /** False stands for the refused record that is longer than a whole file. */
    method AppendBounded(line: seq<Byte>, maximum: nat, backups: nat) returns (accepted: bool)
      modifies this
      ensures accepted == (|Record(line)| <= maximum)
      ensures !accepted ==> files == old(files)
      ensures accepted ==> files == Appended(old(files), Record(line), maximum, backups)
    {
      var raw := Record(line);
      if |raw| > maximum {
        return false;
      }
      var size := if 0 in files then |files[0]| else 0;
      if size + |raw| > maximum {
        if size > maximum {
          files := files[0 := Bounded(files[0], maximum)];
        }
        Rotate(backups);
      }
      files := files[0 := (if 0 in files then files[0] else []) + raw];
      return true;
    }

    method ReadTail(maximum: nat, backups: nat) returns (lines: seq<seq<Byte>>)
      ensures lines == TailLines(files, maximum, backups)
    {
      hide Tail, Lines, FileAt;
      lines := [];
      var index := backups;
      while index > 0
        invariant 0 <= index <= backups
        invariant lines == if index == backups then [] else TailLinesFrom(files, maximum, backups, index + 1)
      {
        lines := lines + Lines(Tail(FileAt(files, index).GetOr([]), maximum));
        index := index - 1;
      }
      lines := lines + Lines(Tail(FileAt(files, 0).GetOr([]), maximum));
    }
  }

  // ---------------------------------------------------------------------------------------------------
  // One append.

  lemma {:induction false} JoinedLines(s: seq<Byte>)
    ensures |Joined(Lines(s))| <= |s|
    ensures Lines(s) == [] <==> s == []
  {
    var i := LineEnd(s);
    if s != [] && i < |s| {
      var rest := s[i + 1..];
      JoinedLines(rest);
      assert Lines(s) == [s[..i]] + Lines(rest);
      assert Lines(s)[1..] == Lines(rest);
    }
  }

  /** Stripping takes the newlines at the end and nothing else, so a record ends with one newline. */
  lemma {:induction false} StrippedIs(line: seq<Byte>) returns (n: nat)
    ensures line == Stripped(line) + seq(n, i => NEWLINE)
    ensures Stripped(line) == [] || Stripped(line)[|Stripped(line)| - 1] != NEWLINE
  {
    if line != [] && line[|line| - 1] == NEWLINE {
      var m := StrippedIs(line[..|line| - 1]);
      n := m + 1;
      assert seq(n, i => NEWLINE) == seq(m, i => NEWLINE) + [NEWLINE];
      assert line == line[..|line| - 1] + [NEWLINE];
    } else {
      n := 0;
      assert seq(0, i => NEWLINE) == [];
    }
  }

  /** The tail of an oversized file begins behind the first newline of its last `maximum` bytes, so with a whole line; only
      a file without a newline there is cut inside a line. */
  lemma TailIs(file: seq<Byte>, maximum: nat)
    ensures |file| <= maximum ==> Tail(file, maximum) == file
    ensures |file| > maximum ==>
              var from := |file| - maximum;
              if NEWLINE in file[from..] then
                exists i :: from <= i < |file| && file[i] == NEWLINE && NEWLINE !in file[from..i]
                            && Tail(file, maximum) == file[i + 1..]
              else Tail(file, maximum) == file[from..]
  {
    if |file| > maximum {
      var from := |file| - maximum;
      var raw := file[from..];
      var i := LineEnd(raw);
      if i < |raw| {
        assert raw[i] == NEWLINE && file[from + i] == NEWLINE;
        assert raw[..i] == file[from..from + i];
        assert raw[i + 1..] == file[from + i + 1..];
      } else {
        assert raw[..i] == raw;
      }
    }
  }

  lemma JoinedCons(first: seq<Byte>, lines: seq<seq<Byte>>)
    requires lines != []
    ensures Joined([first] + lines) == first + [NEWLINE] + Joined(lines)
  {
    assert ([first] + lines)[1..] == lines;
  }

  lemma {:induction false} JoinedBack(s: seq<Byte>)
    requires s != [] && s[|s| - 1] == NEWLINE
    ensures Joined(Lines(s)) + [NEWLINE] == s
  {
    var i := LineEnd(s);
    assert s[..|s|] == s && NEWLINE in s;
    var first, rest := s[..i], s[i + 1..];
    assert s == first + [NEWLINE] + rest;
    assert Lines(s) == [first] + Lines(rest);
    JoinedLines(rest);
    hide Lines, LineEnd, Joined;
    if rest != [] {
      JoinedBack(rest);
      JoinedCons(first, Lines(rest));
      Regroup(first + [NEWLINE], Joined(Lines(rest)), [NEWLINE]);
    } else {
      assert [first] + [] == [first];
      JoinedOne(first);
    }
  }

  lemma Regroup(a: seq<Byte>, b: seq<Byte>, c: seq<Byte>)
    ensures (a + b) + c == a + (b + c)
  {
  }

  lemma JoinedOne(line: seq<Byte>)
    ensures Joined([line]) == line
  {
  }

  /** An oversized log of whole lines is cut down to its tail, byte for byte. */
  lemma BoundedIsTail(file: seq<Byte>, maximum: nat)
    requires |file| > maximum >= 1 && file[|file| - 1] == NEWLINE
    ensures Bounded(file, maximum) == if Tail(file, maximum) == [] then [NEWLINE] else Tail(file, maximum)
  {
    var tail := Tail(file, maximum);
    TailIs(file, maximum);
    assert |tail| <= maximum;
    if tail != [] {
      assert tail[|tail| - 1] == NEWLINE;
      JoinedBack(tail);
    }
    hide Tail, Lines;
  }

  /** Rotation loses nothing but the oldest archive, and that exactly when another file takes its place. */
  lemma RotationConserves(files: Files, backups: nat)
    ensures var after := Shifted(files, backups);
            && (forall k :: 0 <= k < backups && k in files ==> k + 1 in after && after[k + 1] == files[k])
            && (forall k :: k > backups ==> FileAt(after, k) == FileAt(files, k))
            && (backups in files && (backups == 0 || backups - 1 !in files) ==>
                  backups in after && after[backups] == files[backups])
            && (backups >= 1 ==> 0 !in after)
            && (forall k :: k in after && 1 <= k < backups ==> k - 1 in files)
  {
    forall k: nat ensures FileAt(Shifted(files, backups), k) == ShiftedAt(files, backups, k) {
      ShiftedFile(files, backups, k);
    }
    assert forall k: nat :: FileAt(Shifted(files, backups), k).Some? <==> k in Shifted(files, backups);
    forall k | 0 <= k < backups && k in files ensures k + 1 in Shifted(files, backups) && Shifted(files, backups)[k + 1] == files[k] {
      assert FileAt(Shifted(files, backups), k + 1) == Some(files[k]);
    }
    assert FileAt(Shifted(files, backups), backups) == ShiftedAt(files, backups, backups);
    assert FileAt(Shifted(files, backups), 0) == ShiftedAt(files, backups, 0);
    hide Shifted;
  }

  lemma BoundedFits(file: seq<Byte>, maximum: nat)
    ensures |Bounded(file, maximum)| <= maximum || |Bounded(file, maximum)| == 0
    ensures maximum >= 1 ==> |Bounded(file, maximum)| >= 1
  {
    JoinedLines(Tail(file, maximum));
  }

  /** With at least one archive an append leaves the log within its limit, whatever it was before, and a rotated
      file enters the archives within the limit as well. Without archives nothing is ever moved away: a log within
      its limit stays there exactly when the record fits. */
  lemma AppendIsBoundedIff(files: Files, raw: seq<Byte>, maximum: nat, backups: nat)
    requires raw != [] && |raw| <= maximum
    ensures var after := Appended(files, raw, maximum, backups);
            && (backups >= 1 ==> Size(after) <= maximum)
            && (backups >= 1 && Size(files) + |raw| > maximum ==> |FileAt(after, 1).GetOr([])| <= maximum)
            && (backups == 0 && Size(files) <= maximum ==>
                  (Size(after) <= maximum <==> Size(files) + |raw| <= maximum))
  {
    if Size(files) + |raw| > maximum {
      var before := BeforeRotation(files, maximum);
      ShiftedFile(before, backups, 0);
      ShiftedFile(before, backups, 1);
      if Size(files) > maximum {
        BoundedFits(files[0], maximum);
      }
    }
  }

  // ---------------------------------------------------------------------------------------------------
  // The files as groups of records.

  /** Whole records, the current group first. */
  type Groups = seq<seq<seq<Byte>>>

  function Flat(records: seq<seq<Byte>>): seq<Byte> {
    if records == [] then [] else Flat(records[..|records| - 1]) + records[|records| - 1]
  }

  ghost predicate Holds(files: Files, groups: Groups) {
    forall k: nat :: FileAt(files, k) == if k < |groups| then Some(Flat(groups[k])) else None
  }

  /** All records still in some file, from the oldest to the latest. */
  function Retained(groups: Groups): seq<seq<Byte>> {
    if groups == [] then [] else Retained(groups[1..]) + groups[0]
  }

  function AppendGroup(groups: Groups, raw: seq<Byte>, maximum: nat, backups: nat): Groups {
    if groups == [] then [[raw]]
    else if |Flat(groups[0])| + |raw| <= maximum then [groups[0] + [raw]] + groups[1..]
    else if |groups| <= backups then [[raw]] + groups
    else [[raw]] + groups[..backups]
  }

  ghost predicate GroupsOk(groups: Groups, maximum: nat, backups: nat) {
    && |groups| <= backups + 1
    && (forall k :: 0 <= k < |groups| ==> groups[k] != [] && |Flat(groups[k])| <= maximum)
    && (|groups| >= 2 ==> |Flat(groups[0])| + |Flat(groups[1])| > maximum)
  }

  lemma FlatAppend(records: seq<seq<Byte>>, raw: seq<Byte>)
    ensures Flat(records + [raw]) == Flat(records) + raw
  {
    assert (records + [raw])[..|records|] == records;
  }

  lemma FlatOne(raw: seq<Byte>)
    ensures Flat([raw]) == raw
  {
    FlatAppend([], raw);
    assert [] + [raw] == [raw];
  }

  /** An append on the bytes is an append on the groups. */
  lemma AppendRefines(files: Files, groups: Groups, raw: seq<Byte>, maximum: nat, backups: nat)
    requires backups >= 1 && 0 < |raw| <= maximum
    requires Holds(files, groups) && GroupsOk(groups, maximum, backups)
    ensures Holds(Appended(files, raw, maximum, backups), AppendGroup(groups, raw, maximum, backups))
    ensures GroupsOk(AppendGroup(groups, raw, maximum, backups), maximum, backups)
  {
    var after := Appended(files, raw, maximum, backups);
    var next := AppendGroup(groups, raw, maximum, backups);
    FlatOne(raw);
    assert FileAt(files, 0) == if 0 < |groups| then Some(Flat(groups[0])) else None;
    if Size(files) + |raw| > maximum {
      assert BeforeRotation(files, maximum) == files;
      ShiftedFile(files, backups, 0);
      forall k: nat ensures FileAt(after, k) == if k < |next| then Some(Flat(next[k])) else None {
        ShiftedFile(files, backups, k);
        assert FileAt(files, k) == if k < |groups| then Some(Flat(groups[k])) else None;
        if k > 0 {
          assert FileAt(files, k - 1) == if k - 1 < |groups| then Some(Flat(groups[k - 1])) else None;
          assert k < |next| ==> next[k] == groups[k - 1];
        }
      }
    } else {
      if groups != [] {
        FlatAppend(groups[0], raw);
      }
      forall k: nat ensures FileAt(after, k) == if k < |next| then Some(Flat(next[k])) else None {
        assert FileAt(files, k) == if k < |groups| then Some(Flat(groups[k])) else None;
      }
    }
  }

  lemma {:induction false} RetainedDropsOldest(groups: Groups, n: nat)
    requires n <= |groups|
    ensures |Retained(groups[..n])| <= |Retained(groups)|
    ensures Retained(groups)[|Retained(groups)| - |Retained(groups[..n])|..] == Retained(groups[..n])
  {
    if n > 0 {
      RetainedDropsOldest(groups[1..], n - 1);
      assert groups[..n][1..] == groups[1..][..n - 1];
    }
  }

  ghost predicate IsSuffix<T>(part: seq<T>, whole: seq<T>) {
    |part| <= |whole| && part == whole[|whole| - |part|..]
  }

  /** An append adds the record at the end and may drop whole records from the front. When it drops any, more
      than `maximum` bytes remain. */
  lemma AppendRetains(groups: Groups, raw: seq<Byte>, maximum: nat, backups: nat)
    requires backups >= 1 && GroupsOk(groups, maximum, backups) && 0 < |raw| <= maximum
    ensures var next := Retained(AppendGroup(groups, raw, maximum, backups));
            var all := Retained(groups) + [raw];
            && IsSuffix(next, all)
            && (next == all || |Flat(next)| > maximum)
  {
    var next := AppendGroup(groups, raw, maximum, backups);
    if groups == [] {
      assert Retained(next) == [raw];
    } else if |Flat(groups[0])| + |raw| <= maximum {
      assert next[1..] == groups[1..];
    } else if |groups| <= backups {
      assert next[1..] == groups;
    } else {
      assert next[1..] == groups[..backups];
      RetainedDropsOldest(groups, backups);
      assert groups[..backups][0] == groups[0];
      FlatRetains(groups[..backups]);
      FlatAppend(Retained(groups[..backups]), raw);
    }
  }

  lemma {:induction false} FlatConcat(a: seq<seq<Byte>>, b: seq<seq<Byte>>)
    ensures Flat(a + b) == Flat(a) + Flat(b)
  {
    hide Flat;
    if b == [] {
      FlatNothing();
      assert a + b == a;
    } else {
      var init, last := b[..|b| - 1], b[|b| - 1];
      FlatConcat(a, init);
      FlatAppend(a + init, last);
      FlatAppend(init, last);
      assert a + b == (a + init) + [last] && b == init + [last];
    }
  }

  lemma FlatNothing()
    ensures Flat([]) == []
  {
  }

  lemma FlatRetains(groups: Groups)
    requires groups != []
    ensures |Flat(Retained(groups))| >= |Flat(groups[0])|
  {
    FlatConcat(Retained(groups[1..]), groups[0]);
  }

  // ---------------------------------------------------------------------------------------------------
  // Runs.

  function GroupsAfter(records: seq<seq<Byte>>, maximum: nat, backups: nat): Groups {
    if records == [] then []
    else AppendGroup(GroupsAfter(records[..|records| - 1], maximum, backups), records[|records| - 1], maximum, backups)
  }

  /** What a run of appends makes of an empty directory. */
  function FilesAfter(records: seq<seq<Byte>>, maximum: nat, backups: nat): Files {
    if records == [] then map[]
    else Appended(FilesAfter(records[..|records| - 1], maximum, backups), records[|records| - 1], maximum, backups)
  }

  ghost predicate Fit(records: seq<seq<Byte>>, maximum: nat) {
    forall i :: 0 <= i < |records| ==> 0 < |records[i]| <= maximum
  }

  ghost predicate RunOk(records: seq<seq<Byte>>, maximum: nat, groups: Groups) {
    && IsSuffix(Retained(groups), records)
    && (Retained(groups) == records || |Flat(Retained(groups))| > maximum)
  }

  lemma AppendKeepsRun(records: seq<seq<Byte>>, raw: seq<Byte>, maximum: nat, backups: nat, groups: Groups)
    requires backups >= 1 && GroupsOk(groups, maximum, backups) && 0 < |raw| <= maximum
    requires RunOk(records, maximum, groups)
    ensures RunOk(records + [raw], maximum, AppendGroup(groups, raw, maximum, backups))
  {
    AppendRetains(groups, raw, maximum, backups);
    var before, next := Retained(groups), Retained(AppendGroup(groups, raw, maximum, backups));
    hide GroupsOk, AppendGroup, Retained, Flat;
    SuffixOfSuffix(next, before, records, raw);
    FlatAppend(before, raw);
  }

  lemma EmptyRun(maximum: nat, backups: nat)
    ensures Holds(map[], []) && GroupsOk([], maximum, backups) && RunOk([], maximum, [])
  {
  }

  lemma {:induction false} RunRefines(records: seq<seq<Byte>>, maximum: nat, backups: nat)
    requires backups >= 1 && Fit(records, maximum)
    ensures var groups := GroupsAfter(records, maximum, backups);
            && Holds(FilesAfter(records, maximum, backups), groups) && GroupsOk(groups, maximum, backups)
            && RunOk(records, maximum, groups)
  {
    EmptyRun(maximum, backups);
    hide Holds, GroupsOk, RunOk, AppendGroup, Appended;
    if records != [] {
      var init, raw := records[..|records| - 1], records[|records| - 1];
      RunRefines(init, maximum, backups);
      var groups := GroupsAfter(init, maximum, backups);
      AppendRefines(FilesAfter(init, maximum, backups), groups, raw, maximum, backups);
      AppendKeepsRun(init, raw, maximum, backups, groups);
      assert records == init + [raw];
    }
  }

  lemma SuffixOfSuffix<T>(next: seq<T>, part: seq<T>, whole: seq<T>, x: T)
    requires IsSuffix(part, whole) && IsSuffix(next, part + [x])
    ensures IsSuffix(next, whole + [x])
  {
    var all := whole + [x];
    assert part + [x] == all[|whole| - |part|..];
  }

  /** The bytes of all files, from the oldest archive to the log. */
  function Contents(files: Files, n: nat): seq<Byte> {
    (if n == 0 then [] else ContentsFrom(files, n, 1)) + FileAt(files, 0).GetOr([])
  }

  function ContentsFrom(files: Files, n: nat, k: nat): seq<Byte>
    requires k <= n
    decreases n - k
  {
    (if k == n then [] else ContentsFrom(files, n, k + 1)) + FileAt(files, k).GetOr([])
  }

  lemma {:induction false} ContentsOfGroups(files: Files, groups: Groups, n: nat, k: nat)
    requires Holds(files, groups) && |groups| <= n + 1 && k <= n
    ensures ContentsFrom(files, n, k) == Flat(Retained(if k <= |groups| then groups[k..] else []))
    decreases n - k
  {
    assert FileAt(files, k) == if k < |groups| then Some(Flat(groups[k])) else None;
    if k < n {
      ContentsOfGroups(files, groups, n, k + 1);
    }
    if k < |groups| {
      var g := groups[k..];
      assert g[1..] == groups[k + 1..] && g[0] == groups[k];
      FlatConcat(Retained(g[1..]), g[0]);
      if k == n {
        assert g[1..] == [];
      }
    } else if k == |groups| {
      assert groups[k..] == [];
    }
  }

  /** Rotation refines the append stream. After any run of appends with at least one archive, every file is within
      the limit; the files together are a suffix of everything appended, cut at a record boundary; and unless
      nothing is lost they hold more than the last `maximum` bytes. */
  lemma RotationRefinesStream(records: seq<seq<Byte>>, maximum: nat, backups: nat)
    requires backups >= 1 && Fit(records, maximum)
    ensures var files := FilesAfter(records, maximum, backups);
            && (forall k: nat :: |FileAt(files, k).GetOr([])| <= maximum)
            && exists kept ::
                 && IsSuffix(kept, records)
                 && Contents(files, backups) == Flat(kept)
                 && (kept == records || |Flat(kept)| > maximum)
  {
    RunRefines(records, maximum, backups);
    var groups := GroupsAfter(records, maximum, backups);
    var files := FilesAfter(records, maximum, backups);
    ContentsOfGroups(files, groups, backups, 0);
    assert groups[0..] == groups;
    assert Contents(files, backups) == ContentsFrom(files, backups, 0);
    forall k: nat ensures |FileAt(files, k).GetOr([])| <= maximum {
      assert FileAt(files, k) == if k < |groups| then Some(Flat(groups[k])) else None;
    }
    assert IsSuffix(Retained(groups), records) && Contents(files, backups) == Flat(Retained(groups));
  }

  // ---------------------------------------------------------------------------------------------------
  // Reading back.

  /** A record without an inner newline. */
  predicate OneLine(record: seq<Byte>) {
    record != [] && record[|record| - 1] == NEWLINE && NEWLINE !in record[..|record| - 1]
  }

  function Bodies(records: seq<seq<Byte>>): seq<seq<Byte>> {
    if records == [] then []
    else
      var last := records[|records| - 1];
      Bodies(records[..|records| - 1]) + if last == [] then [] else [last[..|last| - 1]]
  }

  lemma BodiesAppend(a: seq<seq<Byte>>, last: seq<Byte>)
    requires last != []
    ensures Bodies(a + [last]) == Bodies(a) + [last[..|last| - 1]]
  {
    assert (a + [last])[..|a|] == a;
  }

  lemma {:induction false} BodiesConcat(a: seq<seq<Byte>>, b: seq<seq<Byte>>)
    requires forall i :: 0 <= i < |b| ==> OneLine(b[i])
    ensures Bodies(a + b) == Bodies(a) + Bodies(b)
  {
    if b == [] {
      assert a + b == a;
    } else {
      var init, last := b[..|b| - 1], b[|b| - 1];
      BodiesConcat(a, init);
      BodiesAppend(a + init, last);
      BodiesAppend(init, last);
      assert a + b == (a + init) + [last] && init + [last] == b;
    }
  }

  /** The first line of `line + rest`. */
  lemma LinesCons(line: seq<Byte>, rest: seq<Byte>)
    requires OneLine(line)
    ensures Lines(line + rest) == [line[..|line| - 1]] + Lines(rest)
  {
    var i := |line| - 1;
    var s := line + rest;
    assert s[..i] == line[..i] && s[i + 1..] == rest;
    LineEndIs(s, i);
  }

  /** A complete line added at the end of whole lines is one more line. */
  lemma {:induction false} LinesAppend(s: seq<Byte>, record: seq<Byte>)
    requires s == [] || s[|s| - 1] == NEWLINE
    requires OneLine(record)
    ensures Lines(s + record) == Lines(s) + [record[..|record| - 1]]
  {
    var i := LineEnd(s);
    hide Lines, LineEnd;
    LinesCons(record, []);
    assert record + [] == record && s[..0] == [];
    LinesOfNothing();
    if s == [] {
      assert s + record == record;
    } else {
      var line, rest := s[..i + 1], s[i + 1..];
      assert line[..|line| - 1] == s[..i];
      assert s == line + rest && s + record == line + (rest + record);
      LinesAppend(rest, record);
      LinesCons(line, rest);
      LinesCons(line, rest + record);
    }
  }

  lemma LinesOfNothing()
    ensures Lines([]) == []
  {
  }

  lemma LineEndIs(s: seq<Byte>, i: nat)
    requires i < |s| && s[i] == NEWLINE && NEWLINE !in s[..i]
    ensures LineEnd(s) == i
  {
    var j := LineEnd(s);
    assert forall k :: 0 <= k < i ==> s[..i][k] == s[k];
    assert forall k :: 0 <= k < j ==> s[..j][k] == s[k];
  }

  lemma {:induction false} LinesOfFlat(records: seq<seq<Byte>>)
    requires forall i :: 0 <= i < |records| ==> OneLine(records[i])
    ensures Lines(Flat(records)) == Bodies(records)
    ensures Flat(records) != [] ==> Flat(records)[|Flat(records)| - 1] == NEWLINE
  {
    if records != [] {
      LinesOfFlat(records[..|records| - 1]);
      LinesAppend(Flat(records[..|records| - 1]), records[|records| - 1]);
    }
  }

  lemma {:induction false} TailOfGroups(files: Files, groups: Groups, maximum: nat, n: nat, k: nat)
    requires Holds(files, groups) && |groups| <= n + 1 && k <= n
    requires forall i :: 0 <= i < |groups| ==> |Flat(groups[i])| <= maximum
    requires forall i, j :: 0 <= i < |groups| && 0 <= j < |groups[i]| ==> OneLine(groups[i][j])
    ensures TailLinesFrom(files, maximum, n, k) == Bodies(Retained(if k <= |groups| then groups[k..] else []))
    decreases n - k
  {
    assert FileAt(files, k) == if k < |groups| then Some(Flat(groups[k])) else None;
    if k < n {
      TailOfGroups(files, groups, maximum, n, k + 1);
    }
    if k < |groups| {
      var g := groups[k..];
      assert g[1..] == groups[k + 1..] && g[0] == groups[k];
      LinesOfFlat(groups[k]);
      BodiesConcat(Retained(g[1..]), g[0]);
      if k == n {
        assert g[1..] == [];
      }
    } else if k == |groups| {
      assert groups[k..] == [];
    }
  }

  lemma {:induction false} GroupsAreRecords(groups: Groups, p: seq<Byte> -> bool)
    requires forall i :: 0 <= i < |Retained(groups)| ==> p(Retained(groups)[i])
    ensures forall i, j :: 0 <= i < |groups| && 0 <= j < |groups[i]| ==> p(groups[i][j])
  {
    if groups != [] {
      var older := Retained(groups[1..]);
      assert Retained(groups) == older + groups[0];
      forall i | 0 <= i < |older| ensures p(older[i]) {
        assert Retained(groups)[i] == older[i];
      }
      forall j | 0 <= j < |groups[0]| ensures p(groups[0][j]) {
        assert Retained(groups)[|older| + j] == groups[0][j];
      }
      GroupsAreRecords(groups[1..], p);
      forall i, j | 0 <= i < |groups| && 0 <= j < |groups[i]| ensures p(groups[i][j]) {
        if i > 0 {
          assert groups[i] == groups[1..][i - 1];
        }
      }
    }
  }

  /** Reading all files back yields exactly the retained records, without their newlines and in order. */
  lemma TailReadsRetained(records: seq<seq<Byte>>, maximum: nat, backups: nat)
    requires backups >= 1 && Fit(records, maximum)
    requires forall i :: 0 <= i < |records| ==> OneLine(records[i])
    ensures exists kept ::
              && IsSuffix(kept, records)
              && TailLines(FilesAfter(records, maximum, backups), maximum, backups) == Bodies(kept)
              && (kept == records || |Flat(kept)| > maximum)
  {
    hide FilesAfter, GroupsAfter, Retained, Flat, Holds, Bodies, OneLine, Lines, TailLinesFrom, Tail;
    var files := FilesAfter(records, maximum, backups);
    var groups := GroupsAfter(records, maximum, backups);
    var kept := Retained(groups);
    RunRefines(records, maximum, backups);
    assert forall i :: 0 <= i < |kept| ==> kept[i] == records[|records| - |kept| + i];
    GroupsAreRecords(groups, OneLine);
    TailOfGroups(files, groups, maximum, backups, 0);
    assert groups[0..] == groups;
    TailLinesWhole(files, maximum, backups);
    assert IsSuffix(kept, records) && TailLines(files, maximum, backups) == Bodies(kept);
  }

  lemma TailLinesWhole(files: Files, maximum: nat, backups: nat)
    ensures TailLines(files, maximum, backups) == TailLinesFrom(files, maximum, backups, 0)
  {
  }

  /** Without archives a single append can take the log past its limit. */
  lemma NoArchivesNoBound()
    ensures var files: Files := map[0 := [97, 98, 99, NEWLINE]];
            Size(files) == 4 && Size(Appended(files, [100, NEWLINE], 4, 0)) == 6
  {
    var files: Files := map[0 := [97, 98, 99, NEWLINE]];
    ShiftedFile(files, 0, 0);
  }
}
