/** The tool-result cache and the file tools that share it. */
module ReadCache {
  import opened Prelude
  import opened Text

  // ---------- the cache as a value ----------

  datatype Entry = Entry(key: string, value: string)

  /** An insertion-ordered dictionary. */
  type Entries = seq<Entry>

  function Lookup(d: Entries, key: string): Option<string> {
    if d == [] then None else if d[0].key == key then Some(d[0].value) else Lookup(d[1..], key)
  }

  /** Assignment to a key: an existing key keeps its place. */
  function SetKey(d: Entries, key: string, value: string): Entries {
    if d == [] then [Entry(key, value)]
    else if d[0].key == key then [Entry(key, value)] + d[1..]
    else [d[0]] + SetKey(d[1..], key, value)
  }

  /** When full, the oldest quarter of the configured size goes. */
  function Evict(d: Entries, maxSize: nat): Entries {
    if |d| >= maxSize then d[Min(maxSize / 4, |d|)..] else d
  }

  function Put(d: Entries, maxSize: nat, key: string, value: string): Entries {
    SetKey(Evict(d, maxSize), key, value)
  }

  /** Every entry whose key contains the path goes. */
  function Invalidate(d: Entries, path: string): Entries {
    if d == [] then []
    else (if Contains(d[0].key, path) then [] else [d[0]]) + Invalidate(d[1..], path)
  }

  lemma {:induction false} LookupIsEntry(d: Entries, key: string)
    ensures Lookup(d, key).Some? ==> Entry(key, Lookup(d, key).value) in d
  {
    if d != [] { LookupIsEntry(d[1..], key); }
  }

  lemma {:induction false} SetKeyEntries(d: Entries, key: string, value: string)
    ensures forall e :: e in SetKey(d, key, value) ==> e in d || e == Entry(key, value)
    ensures |SetKey(d, key, value)| == if Lookup(d, key).Some? then |d| else |d| + 1
    ensures Lookup(SetKey(d, key, value), key) == Some(value)
  {
    if d != [] { SetKeyEntries(d[1..], key, value); }
  }

  lemma {:induction false} InvalidateEntries(d: Entries, path: string)
    ensures forall e :: e in Invalidate(d, path) <==> e in d && !Contains(e.key, path)
    ensures |Invalidate(d, path)| <= |d|
  {
    if d != [] {
      InvalidateEntries(d[1..], path);
      assert d == [d[0]] + d[1..];
    }
  }

  // ---------- size ----------

  /** What can happen to the cache. */
  datatype CacheOp = PutOp(key: string, value: string) | InvalidateOp(path: string) | ClearOp

  function ApplyCacheOp(d: Entries, maxSize: nat, op: CacheOp): Entries {
    match op
    case PutOp(key, value) => Put(d, maxSize, key, value)
    case InvalidateOp(path) => Invalidate(d, path)
    case ClearOp => []
  }

  function ApplyCacheOps(maxSize: nat, ops: seq<CacheOp>): Entries {
    if ops == [] then [] else ApplyCacheOp(ApplyCacheOps(maxSize, ops[..|ops| - 1]), maxSize, ops[|ops| - 1])
  }

  lemma {:induction false} StaysWithin(maxSize: nat, ops: seq<CacheOp>)
    requires maxSize >= 4
    ensures |ApplyCacheOps(maxSize, ops)| <= maxSize
  {
    if ops != [] {
      var d, op := ApplyCacheOps(maxSize, ops[..|ops| - 1]), ops[|ops| - 1];
      StaysWithin(maxSize, ops[..|ops| - 1]);
      match op
      case PutOp(key, value) => SetKeyEntries(Evict(d, maxSize), key, value);
      case InvalidateOp(path) => InvalidateEntries(d, path);
      case ClearOp =>
    }
  }

  function Fill(n: nat): seq<CacheOp> {
    seq(n, i requires 0 <= i < n => PutOp(NatText(i), ""))
  }

  ghost predicate KeyBelow(key: string, n: nat) {
    exists i: nat :: i < n && key == NatText(i)
  }

  /** Below four a quarter is nothing: no entry is ever evicted. */
  lemma {:induction false} SmallNeverEvicts(maxSize: nat, n: nat)
    requires maxSize < 4
    ensures |ApplyCacheOps(maxSize, Fill(n))| == n
    ensures forall e :: e in ApplyCacheOps(maxSize, Fill(n)) ==> KeyBelow(e.key, n)
  {
    if n > 0 {
      SmallNeverEvicts(maxSize, n - 1);
      assert Fill(n)[..n - 1] == Fill(n - 1) && Fill(n)[n - 1] == PutOp(NatText(n - 1), "");
      hide NatText, SetKey, Lookup, Fill;
      var d, key := ApplyCacheOps(maxSize, Fill(n - 1)), NatText(n - 1);
      assert Evict(d, maxSize) == d;
      LookupIsEntry(d, key);
      assert !KeyBelow(key, n - 1) by {
        if i: nat :| i < n - 1 && key == NatText(i) { NatTextInjective(i, n - 1); }
      }
      SetKeyEntries(d, key, "");
      forall e | e in SetKey(d, key, "") ensures KeyBelow(e.key, n) {
        if e in d {
          var i: nat :| i < n - 1 && e.key == NatText(i);
        } else {
          assert e.key == NatText(n - 1);
        }
      }
    }
  }

  /** The configured size bounds the cache for every sequence of operations exactly from size four on. */
  lemma BoundedIff(maxSize: nat)
    ensures (forall ops :: |ApplyCacheOps(maxSize, ops)| <= maxSize) <==> maxSize >= 4
  {
    if maxSize >= 4 {
      forall ops ensures |ApplyCacheOps(maxSize, ops)| <= maxSize { StaysWithin(maxSize, ops); }
    } else {
      SmallNeverEvicts(maxSize, maxSize + 1);
      assert |ApplyCacheOps(maxSize, Fill(maxSize + 1))| > maxSize;
    }
  }

  // ---------- keys ----------

  /** The text of a modification time: a number, so it has no colon. */
  type Stamp = s: string | ':' !in s witness ""

  function ReadKey(path: string, offset: int, limit: int, stamp: Stamp): string {
    "read:" + path + ":" + IntText(offset) + ":" + IntText(limit) + ":" + stamp
  }

  lemma LastColon(a: string, x: string, b: string, y: string)
    requires a + ":" + x == b + ":" + y && ':' !in x && ':' !in y
    ensures a == b && x == y
  {
    var s, t := a + ":" + x, b + ":" + y;
    assert s[|a|] == ':' && t[|b|] == ':';
    assert forall k :: |a| < k < |s| ==> s[k] == x[k - |a| - 1];
    assert forall k :: |b| < k < |t| ==> t[k] == y[k - |b| - 1];
    assert |a| == |b|;
    assert a == s[..|a|] && b == t[..|b|] && x == s[|a| + 1..] && y == t[|b| + 1..];
  }

  /** Two reads share a key only if they are the same read, whatever colons the paths hold. */
  lemma ReadKeyInjective(p: string, o: int, l: int, m: Stamp, p': string, o': int, l': int, m': Stamp)
    requires ReadKey(p, o, l, m) == ReadKey(p', o', l', m')
    ensures p == p' && o == o' && l == l' && m == m'
  {
    IntTextHasNoColon(o); IntTextHasNoColon(l); IntTextHasNoColon(o'); IntTextHasNoColon(l');
    var a, a' := "read:" + p, "read:" + p';
    LastColon(a + ":" + IntText(o) + ":" + IntText(l), m, a' + ":" + IntText(o') + ":" + IntText(l'), m');
    LastColon(a + ":" + IntText(o), IntText(l), a' + ":" + IntText(o'), IntText(l'));
    LastColon(a, IntText(o), a', IntText(o'));
    assert a[5..] == p && a'[5..] == p';
    IntTextInjective(o, o');
    IntTextInjective(l, l');
  }

  lemma KeyHoldsPath(p: string, o: int, l: int, m: Stamp)
    ensures Contains(ReadKey(p, o, l, m), p)
  {
    var tail := ":" + IntText(o) + ":" + IntText(l) + ":" + m;
    assert ReadKey(p, o, l, m) == "read:" + p + tail;
    assert OccursAt(p, p, 0);
    ContainsInside("read:", p, tail, p);
  }

  // ---------- files and tools as values ----------

  datatype Node = File(content: string) | Dir

  type Files = map<string, Node>

  /** How a file's text is numbered and cut for a reader; `None` when reading it fails. */
  type Renderer = (string, string, int, int) -> Option<string>

  datatype Reply = NotFound | IsDirectory | Shown(text: string) | ReadFailed

  /** What `read_file` would answer without a cache. */
  function UncachedRead(render: Renderer, files: Files, path: string, offset: int, limit: int): Reply {
    if path !in files then NotFound
    else match files[path]
         case Dir => IsDirectory
         case File(content) =>
           match render(path, content, offset, limit)
           case Some(text) => Shown(text)
           case None => ReadFailed
  }

  /** Every read cached for this path and stamp is what reading the file now would show. */
  ghost predicate CoherentAt(render: Renderer, files: Files, d: Entries, p: string, m: Stamp) {
    forall e, o, l :: e in d && e.key == ReadKey(p, o, l, m) ==> UncachedRead(render, files, p, o, l) == Shown(e.value)
  }

  ghost predicate Coherent(render: Renderer, files: Files, d: Entries) {
    forall p, m: Stamp :: CoherentAt(render, files, d, p, m)
  }

  /** No read of this path with this stamp is cached. */
  ghost predicate NothingCached(d: Entries, p: string, m: Stamp) {
    forall e, o, l :: e in d ==> e.key != ReadKey(p, o, l, m)
  }

  /** Non-overlapping occurrences, as `str.count` counts them. */
  function Count(s: string, before: string): nat {
    if before == "" then |s| + 1
    else if |s| < |before| then 0
    else if s[..|before|] == before then 1 + Count(s[|before|..], before)
    else Count(s[1..], before)
  }

  function ReplaceFirst(s: string, before: string, after: string): string {
    if |s| < |before| then s
    else if s[..|before|] == before then after + s[|before|..]
    else [s[0]] + ReplaceFirst(s[1..], before, after)
  }

  /** Places where `m` occurs in `s`, none reaching into the next. */
  ghost predicate Apart(s: string, m: string, ps: seq<int>) {
    && (forall k :: 0 <= k < |ps| ==> OccursAt(s, m, ps[k]))
    && forall k :: 0 < k < |ps| ==> ps[k - 1] + |m| <= ps[k]
  }

  function Shifted(ps: seq<int>, d: int): seq<int> {
    seq(|ps|, k requires 0 <= k < |ps| => ps[k] + d)
  }

  lemma OccursShifted(s: string, m: string, d: nat, i: int)
    requires d <= |s| && i >= d
    ensures OccursAt(s, m, i) <==> OccursAt(s[d..], m, i - d)
  {
    if i + |m| <= |s| { assert s[i..i + |m|] == s[d..][i - d..i - d + |m|]; }
  }

  lemma ApartShifted(s: string, m: string, d: int, ps: seq<int>)
    requires 0 <= d <= |s|
    ensures Apart(s[d..], m, ps) ==> Apart(s, m, Shifted(ps, d))
    ensures Apart(s, m, ps) && (ps != [] ==> ps[0] >= d) ==> Apart(s[d..], m, Shifted(ps, -d))
  {
    hide OccursAt;
    if Apart(s[d..], m, ps) {
      var there := Shifted(ps, d);
      forall k | 0 <= k < |ps| ensures OccursAt(s, m, there[k]) {
        assert OccursAt(s[d..], m, ps[k]);
        assert ps[k] >= 0 by { OccursInside(s[d..], m, ps[k]); }
        OccursShifted(s, m, d, ps[k] + d);
      }
    }
    if Apart(s, m, ps) && (ps != [] ==> ps[0] >= d) {
      var here := Shifted(ps, -d);
      forall k | 0 <= k < |ps| ensures OccursAt(s[d..], m, here[k]) {
        ApartFrom(s, m, ps, k);
        OccursShifted(s, m, d, ps[k]);
      }
    }
  }

  lemma OccursInside(s: string, m: string, i: int)
    requires OccursAt(s, m, i)
    ensures 0 <= i && i + |m| <= |s|
  {
  }

  lemma {:induction false} ApartFrom(s: string, m: string, ps: seq<int>, k: nat)
    requires Apart(s, m, ps) && k < |ps|
    ensures ps[0] <= ps[k]
    decreases k
  {
    if k > 0 { ApartFrom(s, m, ps, k - 1); }
  }

  /** No text holds more occurrences apart from one another than are counted. */
  lemma {:induction false} CountIsMost(s: string, m: string, ps: seq<int>)
    requires m != "" && Apart(s, m, ps)
    ensures |ps| <= Count(s, m)
    decreases |s|
  {
    hide OccursAt;
    if ps != [] {
      OccursInside(s, m, ps[0]);
      if s[..|m|] == m {
        var rest := ps[1..];
        assert Apart(s, m, rest);
        assert rest != [] ==> rest[0] >= |m|;
        ApartShifted(s, m, |m|, rest);
        CountIsMost(s[|m|..], m, Shifted(rest, -|m|));
      } else {
        assert ps[0] >= 1 by { if ps[0] == 0 { OccursPrefix(s, m); } }
        ApartShifted(s, m, 1, ps);
        CountIsMost(s[1..], m, Shifted(ps, -1));
      }
    }
  }

  lemma OccursPrefix(s: string, m: string)
    ensures OccursAt(s, m, 0) <==> |m| <= |s| && s[..|m|] == m
  {
  }

  /** As many as are counted there are. */
  lemma {:induction false} CountIsMet(s: string, m: string) returns (ps: seq<int>)
    requires m != ""
    ensures Apart(s, m, ps) && |ps| == Count(s, m)
    decreases |s|
  {
    hide OccursAt;
    if |s| < |m| {
      ps := [];
    } else if s[..|m|] == m {
      var rest := CountIsMet(s[|m|..], m);
      ApartShifted(s, m, |m|, rest);
      ps := [0] + Shifted(rest, |m|);
      OccursPrefix(s, m);
      if rest != [] { OccursInside(s[|m|..], m, rest[0]); }
      assert forall k :: 1 <= k < |ps| ==> ps[k] == Shifted(rest, |m|)[k - 1];
    } else {
      var rest := CountIsMet(s[1..], m);
      ApartShifted(s, m, 1, rest);
      ps := Shifted(rest, 1);
    }
  }

  /** A text is found exactly once if it occurs, and no two of its occurrences are apart. */
  lemma FoundOnceIff(s: string, m: string)
    requires m != ""
    ensures Count(s, m) == 1 <==>
            && (exists i :: OccursAt(s, m, i))
            && forall i, j :: OccursAt(s, m, i) && OccursAt(s, m, j) && i < j ==> j < i + |m|
    ensures Count(s, m) > 0 <==> exists i :: OccursAt(s, m, i)
  {
    hide OccursAt, Count;
    var ps := CountIsMet(s, m);
    forall i, j | OccursAt(s, m, i) && OccursAt(s, m, j) && i + |m| <= j ensures Count(s, m) >= 2 {
      CountIsMost(s, m, [i, j]);
    }
    forall i | OccursAt(s, m, i) ensures Count(s, m) >= 1 {
      CountIsMost(s, m, [i]);
    }
    if |ps| >= 1 { assert OccursAt(s, m, ps[0]); }
    if |ps| >= 2 { assert OccursAt(s, m, ps[1]) && ps[0] + |m| <= ps[1]; }
  }

  /** An edit that is carried out changes the first occurrence and nothing around it. */
  lemma {:induction false} ReplaceFirstSplits(s: string, before: string, after: string) returns (a: string, b: string)
    requires Count(s, before) > 0
    ensures s == a + before + b && ReplaceFirst(s, before, after) == a + after + b
    ensures forall i :: OccursAt(s, before, i) ==> i >= |a|
  {
    hide OccursAt;
    forall i | OccursAt(s, before, i) ensures 0 <= i { OccursInside(s, before, i); }
    if s[..|before|] == before {
      a, b := "", s[|before|..];
    } else {
      a, b := ReplaceFirstSplits(s[1..], before, after);
      forall i | OccursAt(s, before, i) ensures i >= |a| + 1 {
        if i == 0 { OccursPrefix(s, before); }
        OccursShifted(s, before, 1, i);
      }
      a := [s[0]] + a;
    }
  }

  /** Where a write raises, if it does: before it changes anything, after it made the missing directories, or
      after it opened the file, which empties it, leaving `left` in it. */
  datatype Fault = NoFault | AtOnce | AfterDirectories | HalfWritten(left: string)

  /** What the file tools are asked to do. `allowed` is the write policy's answer, `stamp` whatever the clock
      says; glob and grep put their own keys. */
  datatype ToolOp =
    | ReadOp(path: string, offset: int, limit: int, stamp: Stamp)
    | WriteOp(path: string, content: string, allowed: bool, fault: Fault, newDirs: set<string>)
    | EditOp(path: string, before: string, after: string, fault: Fault)
    | SearchOp(key: string, result: string)
    | ClearCache

  datatype World = World(files: Files, cache: Entries)

  /** Keys of glob and grep. */
  predicate SearchKey(key: string) {
    |key| >= 5 && (key[..5] == "glob:" || key[..5] == "grep:")
  }

  predicate Writes(w: World, path: string, newDirs: set<string>) {
    && (path in w.files ==> w.files[path].File?)
    && path !in newDirs && newDirs !! w.files.Keys
  }

  function WithDirs(files: Files, newDirs: set<string>): Files {
    files + (map q | q in newDirs :: Dir)
  }

  /** The write itself: the cache is told only if it went through. */
  function Attempted(w: World, path: string, content: string, fault: Fault, newDirs: set<string>): World {
    match fault
    case AtOnce => w
    case AfterDirectories => w.(files := WithDirs(w.files, newDirs))
    case HalfWritten(left) => w.(files := WithDirs(w.files, newDirs)[path := File(left)])
    case NoFault => World(WithDirs(w.files, newDirs)[path := File(content)], Invalidate(w.cache, path))
  }

  /** The edit the tool carries out, if it finds the old text exactly once. */
  predicate Edits(w: World, path: string, before: string) {
    path in w.files && w.files[path].File? && Count(w.files[path].content, before) == 1
  }

  function StepTool(render: Renderer, maxSize: nat, w: World, op: ToolOp): World {
    match op
    case ReadOp(p, o, l, m) =>
      if p !in w.files || w.files[p].Dir? then w
      else if Lookup(w.cache, ReadKey(p, o, l, m)).Some? then w
      else
        (match render(p, w.files[p].content, o, l)
         case None => w
         case Some(text) => w.(cache := Put(w.cache, maxSize, ReadKey(p, o, l, m), text)))
    case WriteOp(p, content, allowed, fault, newDirs) =>
      if !allowed || !Writes(w, p, newDirs) then w else Attempted(w, p, content, fault, newDirs)
    case EditOp(p, before, after, fault) =>
      if !Edits(w, p, before) then w
      else Attempted(w, p, ReplaceFirst(w.files[p].content, before, after), fault, {})
    case SearchOp(key, result) =>
      if SearchKey(key) && Lookup(w.cache, key).None? then w.(cache := Put(w.cache, maxSize, key, result)) else w
    case ClearCache => w.(cache := [])
  }

  predicate IsWrite(op: ToolOp) {
    op.WriteOp? || op.EditOp?
  }

  /** `op` may empty the file at `p` and then raise. */
  predicate HalfWrites(op: ToolOp, p: string) {
    IsWrite(op) && op.path == p && op.fault.HalfWritten?
  }

  predicate ReadsAt(op: ToolOp, p: string, m: Stamp) {
    op.ReadOp? && op.path == p && op.stamp == m
  }

  /** What a read is answered with when the cache is consulted. */
  function CachedRead(render: Renderer, w: World, p: string, o: int, l: int, m: Stamp): Reply {
    if p in w.files && w.files[p].File? && Lookup(w.cache, ReadKey(p, o, l, m)).Some?
    then Shown(Lookup(w.cache, ReadKey(p, o, l, m)).value)
    else UncachedRead(render, w.files, p, o, l)
  }

  /** An edit is carried out exactly on a file in which the old text is found once; an empty one is only found once
      in an empty file. */
  lemma EditsIff(w: World, path: string, before: string)
    ensures Edits(w, path, before) <==>
            && path in w.files && w.files[path].File?
            && var text := w.files[path].content;
               if before == "" then text == ""
               else && (exists i :: OccursAt(text, before, i))
                    && forall i, j :: OccursAt(text, before, i) && OccursAt(text, before, j) && i < j ==> j < i + |before|
  {
    hide OccursAt;
    if path in w.files && w.files[path].File? && before != "" {
      FoundOnceIff(w.files[path].content, before);
    }
  }

  /** What a write leaves behind: nothing if it raised at once, the new directories otherwise, the file emptied or
      written last, and every other file as it was. */
  lemma AttemptLeaves(w: World, path: string, content: string, fault: Fault, newDirs: set<string>)
    requires Writes(w, path, newDirs)
    ensures var w' := Attempted(w, path, content, fault, newDirs);
            && (fault == AtOnce ==> w' == w)
            && (fault != AtOnce ==> forall q :: q in newDirs ==> q in w'.files && w'.files[q] == Dir)
            && (forall q :: q in w.files && q != path ==> q in w'.files && w'.files[q] == w.files[q])
            && (forall q :: q in w'.files ==> q in w.files || q in newDirs || q == path)
            && (fault == AfterDirectories ==> (path in w'.files <==> path in w.files))
            && (fault == AfterDirectories && path in w.files ==> w'.files[path] == w.files[path])
            && (fault.HalfWritten? ==> path in w'.files && w'.files[path] == File(fault.left))
            && (fault == NoFault ==> path in w'.files && w'.files[path] == File(content))
            && (fault != NoFault ==> w'.cache == w.cache)
            && (fault == NoFault ==> forall e :: e in w'.cache <==> e in w.cache && !Contains(e.key, path))
  {
    InvalidateEntries(w.cache, path);
  }

  /** A search is answered from the cache from then on, until the cache is cleared. */
  lemma SearchIsCached(render: Renderer, maxSize: nat, w: World, key: string, result: string)
    requires SearchKey(key)
    ensures var w' := StepTool(render, maxSize, w, SearchOp(key, result));
            w'.files == w.files && Lookup(w'.cache, key) == if Lookup(w.cache, key).Some? then Lookup(w.cache, key) else Some(result)
    ensures StepTool(render, maxSize, w, ClearCache) == World(w.files, [])
  {
    SetKeyEntries(Evict(w.cache, maxSize), key, result);
  }

  /** The keys glob and grep build are search keys. */
  lemma SearchKeysAre(rest: string)
    ensures SearchKey("glob:" + rest) && SearchKey("grep:" + rest)
  {
    assert ("glob:" + rest)[..5] == "glob:" && ("grep:" + rest)[..5] == "grep:";
  }

  // ---------- coherence ----------

  lemma ReadKeyIsNoSearchKey(p: string, o: int, l: int, m: Stamp)
    ensures !SearchKey(ReadKey(p, o, l, m))
  {
    assert ReadKey(p, o, l, m)[..5] == "read:";
  }

  lemma PutKeepsAt(render: Renderer, files: Files, d: Entries, maxSize: nat, key: string, value: string, p: string, m: Stamp)
    requires CoherentAt(render, files, d, p, m)
    requires forall o, l :: key == ReadKey(p, o, l, m) ==> UncachedRead(render, files, p, o, l) == Shown(value)
    ensures CoherentAt(render, files, Put(d, maxSize, key, value), p, m)
  {
    hide UncachedRead, ReadKey, SetKey;
    var kept := Evict(d, maxSize);
    assert forall e :: e in kept ==> e in d;
    SetKeyEntries(kept, key, value);
  }

  lemma PutKeepsNothing(d: Entries, maxSize: nat, key: string, value: string, p: string, m: Stamp)
    requires NothingCached(d, p, m) && forall o, l :: key != ReadKey(p, o, l, m)
    ensures NothingCached(Put(d, maxSize, key, value), p, m)
  {
    hide ReadKey, SetKey;
    var kept := Evict(d, maxSize);
    assert forall e :: e in kept ==> e in d;
    SetKeyEntries(kept, key, value);
  }

  /** A write attempt, however it ends, spoils the reads of its own path only, and those only half-way. */
  lemma AttemptKeepsAt(render: Renderer, w: World, path: string, content: string, fault: Fault, newDirs: set<string>,
                       p: string, m: Stamp)
    requires CoherentAt(render, w.files, w.cache, p, m) && Writes(w, path, newDirs)
    requires fault.HalfWritten? && path == p ==> NothingCached(w.cache, p, m)
    ensures var w' := Attempted(w, path, content, fault, newDirs); CoherentAt(render, w'.files, w'.cache, p, m)
  {
    hide ReadKey, Contains;
    var w' := Attempted(w, path, content, fault, newDirs);
    InvalidateEntries(w.cache, path);
    forall e, o, l | e in w'.cache && e.key == ReadKey(p, o, l, m)
      ensures UncachedRead(render, w'.files, p, o, l) == Shown(e.value)
    {
      KeyHoldsPath(p, o, l, m);
      assert e in w.cache;
      assert UncachedRead(render, w.files, p, o, l) == Shown(e.value);
      assert p !in newDirs && (p != path || fault == AtOnce || fault == AfterDirectories) && w'.files[p] == w.files[p];
    }
  }

  lemma AttemptKeepsNothing(w: World, path: string, content: string, fault: Fault, newDirs: set<string>, p: string, m: Stamp)
    requires NothingCached(w.cache, p, m)
    ensures NothingCached(Attempted(w, path, content, fault, newDirs).cache, p, m)
  {
    hide ReadKey, Contains;
    InvalidateEntries(w.cache, path);
  }

  lemma StepKeepsAt(render: Renderer, maxSize: nat, w: World, op: ToolOp, p: string, m: Stamp)
    requires CoherentAt(render, w.files, w.cache, p, m)
    requires HalfWrites(op, p) ==> NothingCached(w.cache, p, m)
    ensures var w' := StepTool(render, maxSize, w, op); CoherentAt(render, w'.files, w'.cache, p, m)
  {
    hide CoherentAt, NothingCached, ReadKey, Put, Count, ReplaceFirst, SearchKey, Attempted;
    match op
    case ReadOp(q, o, l, n) =>
      if q in w.files && w.files[q].File? && render(q, w.files[q].content, o, l).Some? {
        forall o', l' | ReadKey(q, o, l, n) == ReadKey(p, o', l', m)
          ensures UncachedRead(render, w.files, p, o', l') == Shown(render(q, w.files[q].content, o, l).value)
        {
          ReadKeyInjective(q, o, l, n, p, o', l', m);
        }
        PutKeepsAt(render, w.files, w.cache, maxSize, ReadKey(q, o, l, n), render(q, w.files[q].content, o, l).value, p, m);
      }
    case WriteOp(q, content, allowed, fault, newDirs) =>
      if Writes(w, q, newDirs) { AttemptKeepsAt(render, w, q, content, fault, newDirs, p, m); }
    case EditOp(q, before, after, fault) =>
      if Edits(w, q, before) {
        AttemptKeepsAt(render, w, q, ReplaceFirst(w.files[q].content, before, after), fault, {}, p, m);
      }
    case SearchOp(key, result) =>
      if SearchKey(key) {
        forall o, l ensures key != ReadKey(p, o, l, m) {
          ReadKeyIsNoSearchKey(p, o, l, m);
        }
        PutKeepsAt(render, w.files, w.cache, maxSize, key, result, p, m);
      }
    case ClearCache => EmptyIsCoherentAt(render, w.files, p, m);
  }

  lemma StepKeepsNothing(render: Renderer, maxSize: nat, w: World, op: ToolOp, p: string, m: Stamp)
    requires NothingCached(w.cache, p, m) && !ReadsAt(op, p, m)
    ensures NothingCached(StepTool(render, maxSize, w, op).cache, p, m)
  {
    hide NothingCached, ReadKey, Put, Count, ReplaceFirst, SearchKey, Attempted;
    match op
    case ReadOp(q, o, l, n) =>
      if q in w.files && w.files[q].File? && render(q, w.files[q].content, o, l).Some? {
        forall o', l' ensures ReadKey(q, o, l, n) != ReadKey(p, o', l', m) {
          if ReadKey(q, o, l, n) == ReadKey(p, o', l', m) { ReadKeyInjective(q, o, l, n, p, o', l', m); }
        }
        PutKeepsNothing(w.cache, maxSize, ReadKey(q, o, l, n), render(q, w.files[q].content, o, l).value, p, m);
      }
    case WriteOp(q, content, allowed, fault, newDirs) =>
      AttemptKeepsNothing(w, q, content, fault, newDirs, p, m);
    case EditOp(q, before, after, fault) =>
      if Edits(w, q, before) {
        AttemptKeepsNothing(w, q, ReplaceFirst(w.files[q].content, before, after), fault, {}, p, m);
      }
    case SearchOp(key, result) =>
      if SearchKey(key) {
        forall o, l ensures key != ReadKey(p, o, l, m) {
          ReadKeyIsNoSearchKey(p, o, l, m);
        }
        PutKeepsNothing(w.cache, maxSize, key, result, p, m);
      }
    case ClearCache => EmptyIsCoherentAt(render, w.files, p, m);
  }

  lemma EmptyIsCoherentAt(render: Renderer, files: Files, p: string, m: Stamp)
    ensures CoherentAt(render, files, [], p, m) && NothingCached([], p, m)
  {
  }

  /** Every tool call but one that empties a file and then raises keeps all cached reads in agreement with the files. */
  lemma StepKeepsCoherent(render: Renderer, maxSize: nat, w: World, op: ToolOp)
    requires Coherent(render, w.files, w.cache) && (IsWrite(op) ==> !op.fault.HalfWritten?)
    ensures var w' := StepTool(render, maxSize, w, op); Coherent(render, w'.files, w'.cache)
  {
    hide CoherentAt, NothingCached, StepTool;
    var w' := StepTool(render, maxSize, w, op);
    forall p, m: Stamp ensures CoherentAt(render, w'.files, w'.cache, p, m) {
      StepKeepsAt(render, maxSize, w, op, p, m);
    }
  }

  function RunTools(render: Renderer, maxSize: nat, w: World, ops: seq<ToolOp>): World {
    if ops == [] then w else StepTool(render, maxSize, RunTools(render, maxSize, w, ops[..|ops| - 1]), ops[|ops| - 1])
  }

  /** No half-written `p` after a read of it with this stamp. */
  ghost predicate StampSafe(ops: seq<ToolOp>, p: string, m: Stamp) {
    forall i, j :: 0 <= i < j < |ops| && ReadsAt(ops[i], p, m) ==> !HalfWrites(ops[j], p)
  }

  ghost predicate NeverRead(ops: seq<ToolOp>, p: string, m: Stamp) {
    forall i :: 0 <= i < |ops| ==> !ReadsAt(ops[i], p, m)
  }

  lemma {:induction false} RunKeepsAt(render: Renderer, maxSize: nat, files: Files, ops: seq<ToolOp>, p: string, m: Stamp)
    requires StampSafe(ops, p, m)
    ensures var w := RunTools(render, maxSize, World(files, []), ops);
            && CoherentAt(render, w.files, w.cache, p, m)
            && (NeverRead(ops, p, m) ==> NothingCached(w.cache, p, m))
  {
    hide CoherentAt, NothingCached, StepTool, ReadsAt, HalfWrites;
    if ops == [] {
      EmptyIsCoherentAt(render, files, p, m);
    } else {
      var n := |ops| - 1;
      var w := RunTools(render, maxSize, World(files, []), ops[..n]);
      RunKeepsAt(render, maxSize, files, ops[..n], p, m);
      assert HalfWrites(ops[n], p) ==> NeverRead(ops[..n], p, m);
      StepKeepsAt(render, maxSize, w, ops[n], p, m);
      if NeverRead(ops, p, m) {
        assert NeverRead(ops[..n], p, m) && !ReadsAt(ops[n], p, m);
        StepKeepsNothing(render, maxSize, w, ops[n], p, m);
      }
    }
  }

  lemma CoherentReadIsFresh(render: Renderer, w: World, p: string, o: int, l: int, m: Stamp)
    requires CoherentAt(render, w.files, w.cache, p, m)
    ensures CachedRead(render, w, p, o, l, m) == UncachedRead(render, w.files, p, o, l)
  {
    hide ReadKey;
    LookupIsEntry(w.cache, ReadKey(p, o, l, m));
  }

  /** After any sequence of tool calls, evictions and failing writes included, a read through the cache answers
      exactly what a read without it would, as long as its stamp was not already used for that path before the
      path was left half-written. */
  lemma EveryReadIsFresh(render: Renderer, maxSize: nat, files: Files, ops: seq<ToolOp>,
                         p: string, o: int, l: int, m: Stamp)
    requires StampSafe(ops, p, m)
    ensures var w := RunTools(render, maxSize, World(files, []), ops);
            CachedRead(render, w, p, o, l, m) == UncachedRead(render, w.files, p, o, l)
  {
    hide CoherentAt, CachedRead, UncachedRead, RunTools, StampSafe;
    RunKeepsAt(render, maxSize, files, ops, p, m);
    CoherentReadIsFresh(render, RunTools(render, maxSize, World(files, []), ops), p, o, l, m);
  }

  /** Exactly what a write that stops half-way spoils: the reads of that path still cached under the stamp,
      unless what is left in the file happens to show the same. */
  lemma HalfWriteSpoilsIff(render: Renderer, w: World, path: string, content: string, left: string, newDirs: set<string>,
                           p: string, o: int, l: int, m: Stamp)
    requires CoherentAt(render, w.files, w.cache, p, m) && Writes(w, path, newDirs)
    ensures var w', cached := Attempted(w, path, content, HalfWritten(left), newDirs), Lookup(w.cache, ReadKey(p, o, l, m));
            CachedRead(render, w', p, o, l, m) == UncachedRead(render, w'.files, p, o, l) <==>
            p != path || cached.None? || render(p, left, o, l) == cached
  {
    hide ReadKey;
    LookupIsEntry(w.cache, ReadKey(p, o, l, m));
    if p != path && Lookup(w.cache, ReadKey(p, o, l, m)).Some? {
      assert UncachedRead(render, w.files, p, o, l) == Shown(Lookup(w.cache, ReadKey(p, o, l, m)).value);
    }
  }

  /** The bad case as a run: a read, a write of the same file that raises once the file is emptied, and the same
      read with the same stamp, which still shows what is gone. */
  lemma StaleAfterHalfWrite(render: Renderer, maxSize: nat, p: string, was: string, wanted: string, left: string,
                            o: int, l: int, m: Stamp)
    requires render(p, was, o, l).Some? && render(p, left, o, l) != render(p, was, o, l)
    ensures var ops := [ReadOp(p, o, l, m), WriteOp(p, wanted, true, HalfWritten(left), {})];
            var w := RunTools(render, maxSize, World(map[p := File(was)], []), ops);
            CachedRead(render, w, p, o, l, m) == UncachedRead(render, map[p := File(was)], p, o, l)
            != UncachedRead(render, w.files, p, o, l)
  {
    hide ReadKey;
    var read, write := ReadOp(p, o, l, m), WriteOp(p, wanted, true, HalfWritten(left), {});
    var w0 := World(map[p := File(was)], []);
    var w1 := StepTool(render, maxSize, w0, read);
    assert w1.cache == [Entry(ReadKey(p, o, l, m), render(p, was, o, l).value)];
    assert [read][..0] == [] && [read, write][..1] == [read];
    assert RunTools(render, maxSize, w0, [read]) == w1;
    var w := StepTool(render, maxSize, w1, write);
    assert RunTools(render, maxSize, w0, [read, write]) == w;
    assert w.files[p] == File(left) && w.cache == w1.cache;
    assert Lookup(w.cache, ReadKey(p, o, l, m)) == render(p, was, o, l);
  }

  // ---------- the cache object and the tools ----------

  class ToolCache {
    var data: Entries
    const maxSize: nat
    var hits: nat
    var misses: nat

    constructor (maxSize: nat)
      ensures this.maxSize == maxSize && data == [] && hits == 0 && misses == 0
    {
      this.maxSize := maxSize;
      data, hits, misses := [], 0, 0;
    }

    method Get(key: string) returns (val: Option<string>)
      modifies this
      ensures data == old(data) && val == Lookup(data, key)
      ensures hits == old(hits) + (if val.Some? then 1 else 0) && misses == old(misses) + (if val.None? then 1 else 0)
    {
      val := Lookup(data, key);
      if val.Some? {
        hits := hits + 1;
      } else {
        misses := misses + 1;
      }
    }

    method PutEntry(key: string, value: string)
      modifies this
      ensures data == Put(old(data), maxSize, key, value)
      ensures hits == old(hits) && misses == old(misses)
      ensures maxSize >= 4 && old(|data|) <= maxSize ==> |data| <= maxSize
    {
      if |data| >= maxSize {
        data := data[Min(maxSize / 4, |data|)..];
      }
      SetKeyEntries(data, key, value);
      data := SetKey(data, key, value);
    }

    method InvalidatePath(path: string)
      modifies this
      ensures data == Invalidate(old(data), path)
      ensures hits == old(hits) && misses == old(misses)
    {
      var kept: Entries := [];
      for i := 0 to |data|
        invariant data == old(data) && hits == old(hits) && misses == old(misses)
        invariant kept + Invalidate(data[i..], path) == Invalidate(data, path)
      {
        assert data[i..][0] == data[i] && data[i..][1..] == data[i + 1..];
        if !Contains(data[i].key, path) {
          kept := kept + [data[i]];
        }
      }
      data := kept;
    }

    method Clear()
      modifies this
      ensures data == [] && hits == old(hits) && misses == old(misses)
    {
      data := [];
    }
  }

  class FileTools {
    const cache: ToolCache
    const render: Renderer
    var files: Files

    ghost predicate Fresh()
      reads this, cache
    {
      Coherent(render, files, cache.data)
    }

    ghost predicate FreshAt(path: string, stamp: Stamp)
      reads this, cache
    {
      CoherentAt(render, files, cache.data, path, stamp)
    }

    ghost function View(): World
      reads this, cache
    {
      World(files, cache.data)
    }

    constructor (files: Files, cache: ToolCache, render: Renderer)
      requires cache.data == []
      ensures this.cache == cache && this.render == render && this.files == files && Fresh()
    {
      this.cache, this.files, this.render := cache, files, render;
    }

    /** `read_file`: whatever was cached for this stamp, the answer is the uncached one. */
    method ReadFile(path: string, offset: int, limit: int, stamp: Stamp) returns (reply: Reply)
      requires FreshAt(path, stamp)
      modifies cache
      ensures FreshAt(path, stamp) && reply == UncachedRead(render, files, path, offset, limit)
      ensures View() == StepTool(render, cache.maxSize, old(View()), ReadOp(path, offset, limit, stamp))
      ensures reply == NotFound <==> path !in files
      ensures reply == IsDirectory <==> path in files && files[path].Dir?
      ensures reply == ReadFailed <==> path in files && files[path].File? && render(path, files[path].content, offset, limit).None?
      ensures old(Fresh()) ==> Fresh()
    {
      ghost var op := ReadOp(path, offset, limit, stamp);
      StepKeepsAt(render, cache.maxSize, View(), op, path, stamp);
      if Fresh() { StepKeepsCoherent(render, cache.maxSize, View(), op); }
      if path !in files {
        return NotFound;
      }
      if files[path].Dir? {
        return IsDirectory;
      }
      var key := ReadKey(path, offset, limit, stamp);
      LookupIsEntry(cache.data, key);
      var cached := cache.Get(key);
      if cached.Some? {
        return Shown(cached.value);
      }
      match render(path, files[path].content, offset, limit) {
        case None => return ReadFailed;
        case Some(text) =>
          cache.PutEntry(key, text);
          return Shown(text);
      }
    }

    /** Makes the directories, writes, tells the cache; `fault` says where it raises. */
    method Attempt(path: string, content: string, fault: Fault, newDirs: set<string>) returns (done: bool)
      modifies this, cache
      ensures View() == Attempted(old(View()), path, content, fault, newDirs)
      ensures done <==> fault == NoFault
    {
      if fault == AtOnce {
        return false;
      }
      files := WithDirs(files, newDirs);
      if fault == AfterDirectories {
        return false;
      }
      if fault.HalfWritten? {
        files := files[path := File(fault.left)];
        return false;
      }
      files := files[path := File(content)];
      cache.InvalidatePath(path);
      done := true;
    }

    method WriteFile(path: string, content: string, allowed: bool, fault: Fault, newDirs: set<string>)
      returns (written: bool)
      modifies this, cache
      ensures View() == StepTool(render, cache.maxSize, old(View()), WriteOp(path, content, allowed, fault, newDirs))
      ensures old(Fresh()) && !fault.HalfWritten? ==> Fresh()
      ensures written ==> path in files && files[path] == File(content)
    {
      if Fresh() && !fault.HalfWritten? {
        StepKeepsCoherent(render, cache.maxSize, View(), WriteOp(path, content, allowed, fault, newDirs));
      }
      if !allowed || !Writes(World(files, cache.data), path, newDirs) {
        return false;
      }
      written := Attempt(path, content, fault, newDirs);
    }

    method EditFile(path: string, before: string, after: string, fault: Fault) returns (edited: bool)
      modifies this, cache
      ensures View() == StepTool(render, cache.maxSize, old(View()), EditOp(path, before, after, fault))
      ensures old(Fresh()) && !fault.HalfWritten? ==> Fresh()
      ensures edited ==> old(Edits(View(), path, before))
    {
      if Fresh() && !fault.HalfWritten? {
        StepKeepsCoherent(render, cache.maxSize, View(), EditOp(path, before, after, fault));
      }
      if path !in files || files[path].Dir? {
        return false;
      }
      var text := files[path].content;
      if Count(text, before) != 1 {
        return false;
      }
      edited := Attempt(path, ReplaceFirst(text, before, after), fault, {});
    }
  }
}
