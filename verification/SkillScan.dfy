/**
 Scanning a directory tree for skills, once by recursion and once with an explicit stack.  The tree is what
 the file system answers: directories that cannot be listed, entries that cannot be read, and for every
 directory the outcome of parsing its two skill files, where it has them.
 */
module SkillScan {
  import opened Prelude

  type Parsed = nat

  datatype Skill = Package(package: Parsed) | Compat(markdown: Parsed)

  /** A skill file that is there parses to something or fails. */
  datatype Files = Files(toml: Option<Result<Parsed, bool>>, markdown: Option<Result<Parsed, bool>>)

  datatype Directory = Directory(readable: bool, files: Files, entries: seq<Entry>)

  datatype Entry = Unreadable | File | Dir(dir: Directory)

  datatype ScanError = ScanFailed

  predicate IsSkillDir(d: Directory) {
    d.files.markdown.Some? || d.files.toml.Some?
  }

  /** `skill.toml` goes before `SKILL.md`; a file that is there but does not parse is an error. */
  function LoadSingleSkill(d: Directory): Result<Option<Skill>, ScanError> {
    match d.files.toml
    case Some(Ok(p)) => Ok(Some(Package(p)))
    case Some(Err(_)) => Err(ScanFailed)
    case None =>
      match d.files.markdown
      case Some(Ok(p)) => Ok(Some(Compat(p)))
      case Some(Err(_)) => Err(ScanFailed)
      case None => Ok(None)
  }

  /** The skill of a directory met on the way, if it has one. */
  function OwnSkill(d: Directory): seq<Skill> {
    var r := LoadSingleSkill(d);
    if r.Ok? && r.value.Some? then [r.value.value] else []
  }

  predicate Loads(d: Directory) {
    LoadSingleSkill(d).Ok?
  }

  // ----- what a scan should do -----

  /** Everything below the directory can be read and parsed; its own files do not matter. */
  predicate Clean(d: Directory) {
    d.readable && forall i :: 0 <= i < |d.entries| ==> CleanEntry(d.entries[i])
  }

  predicate CleanEntry(e: Entry) {
    !e.Unreadable? && (e.Dir? ==> Loads(e.dir) && Clean(e.dir))
  }

  /** The skills below the directory, each directory before what it contains. */
  function Preorder(d: Directory): seq<Skill> {
    PreorderEntries(d.entries)
  }

  function PreorderEntries(entries: seq<Entry>): seq<Skill> {
    if entries == [] then [] else PreorderEntry(entries[0]) + PreorderEntries(entries[1..])
  }

  function PreorderEntry(e: Entry): seq<Skill> {
    if e.Dir? then OwnSkill(e.dir) + Preorder(e.dir) else []
  }

  /** `e` lies somewhere below `d`. */
  ghost predicate Below(d: Directory, e: Directory) {
    exists i :: 0 <= i < |d.entries| && d.entries[i].Dir? && (d.entries[i].dir == e || Below(d.entries[i].dir, e))
  }

  /** The entry is a directory with the skill, or with it somewhere below. */
  ghost predicate Holds(e: Entry, s: Skill) {
    e.Dir? && exists x :: (x == e.dir || Below(e.dir, x)) && OwnSkill(x) == [s]
  }

  lemma {:induction false} PreorderFinds(d: Directory, s: Skill)
    ensures s in Preorder(d) <==> exists e :: Below(d, e) && OwnSkill(e) == [s]
    decreases d, |d.entries| + 1
  {
    EntriesFind(d, 0, s);
    assert d.entries[0..] == d.entries;
    if e :| Below(d, e) && OwnSkill(e) == [s] {
      var i :| 0 <= i < |d.entries| && d.entries[i].Dir? && (d.entries[i].dir == e || Below(d.entries[i].dir, e));
      assert Holds(d.entries[i], s);
    }
    if i :| 0 <= i < |d.entries| && Holds(d.entries[i], s) {
      var child := d.entries[i].dir;
      var e :| (e == child || Below(child, e)) && OwnSkill(e) == [s];
      assert Below(d, e);
    }
  }

  lemma {:induction false} EntriesFind(d: Directory, k: nat, s: Skill)
    requires k <= |d.entries|
    ensures s in PreorderEntries(d.entries[k..]) <==> exists i :: k <= i < |d.entries| && Holds(d.entries[i], s)
    decreases d, |d.entries| - k
  {
    if k < |d.entries| {
      var e := d.entries[k];
      EntriesFind(d, k + 1, s);
      assert d.entries[k..][1..] == d.entries[k + 1..];
      if e.Dir? {
        PreorderFinds(e.dir, s);
        assert s in OwnSkill(e.dir) <==> OwnSkill(e.dir) == [s];
        if Holds(e, s) {
          var x :| (x == e.dir || Below(e.dir, x)) && OwnSkill(x) == [s];
        }
      }
    }
  }

  // ----- in terms of the files -----

  /** The skill file that counts is there and does not parse. */
  predicate Broken(d: Directory) {
    (d.files.toml.Some? && d.files.toml.value.Err?)
    || (d.files.toml.None? && d.files.markdown.Some? && d.files.markdown.value.Err?)
  }

  /** A directory has the package of its `skill.toml`, or else the skill of its `SKILL.md`; a broken one has none. */
  lemma OwnSkillIff(d: Directory, p: Parsed)
    ensures OwnSkill(d) == [Package(p)] <==> d.files.toml == Some(Ok(p))
    ensures OwnSkill(d) == [Compat(p)] <==> d.files.toml == None && d.files.markdown == Some(Ok(p))
    ensures Loads(d) <==> !Broken(d)
  {
  }

  /** Every package and every markdown skill anywhere below is found, and nothing else is. */
  lemma ScanFindsFiles(d: Directory, p: Parsed)
    ensures Package(p) in Preorder(d) <==> exists e :: Below(d, e) && e.files.toml == Some(Ok(p))
    ensures Compat(p) in Preorder(d) <==>
      exists e :: Below(d, e) && e.files.toml == None && e.files.markdown == Some(Ok(p))
  {
    hide Below, Preorder, OwnSkill;
    PreorderFinds(d, Package(p));
    PreorderFinds(d, Compat(p));
    forall e
      ensures OwnSkill(e) == [Package(p)] <==> e.files.toml == Some(Ok(p))
      ensures OwnSkill(e) == [Compat(p)] <==> e.files.toml == None && e.files.markdown == Some(Ok(p))
    {
      OwnSkillIff(e, p);
    }
  }

  /** The directory and its entries can be read. */
  predicate Listable(d: Directory) {
    d.readable && forall i :: 0 <= i < |d.entries| ==> !d.entries[i].Unreadable?
  }

  /** A scan succeeds exactly when it and all below it can be read and nothing below it is broken. */
  lemma {:induction false} CleanIff(d: Directory)
    ensures Clean(d) <==> Listable(d) && forall e :: Below(d, e) ==> Listable(e) && !Broken(e)
  {
    forall i | 0 <= i < |d.entries| && d.entries[i].Dir?
      ensures Clean(d.entries[i].dir) <==>
        Listable(d.entries[i].dir) && forall e :: Below(d.entries[i].dir, e) ==> Listable(e) && !Broken(e)
    {
      CleanIff(d.entries[i].dir);
    }
    if Clean(d) {
      forall e | Below(d, e) ensures Listable(e) && !Broken(e) {
        var i :| 0 <= i < |d.entries| && d.entries[i].Dir? && (d.entries[i].dir == e || Below(d.entries[i].dir, e));
        assert CleanEntry(d.entries[i]);
      }
    }
    if Listable(d) && forall e :: Below(d, e) ==> Listable(e) && !Broken(e) {
      forall i | 0 <= i < |d.entries| ensures CleanEntry(d.entries[i]) {
        if d.entries[i].Dir? {
          var child := d.entries[i].dir;
          assert Below(d, child);
          forall e | Below(child, e) ensures Listable(e) && !Broken(e) { assert Below(d, e); }
        }
      }
    }
  }

  // ----- each skill once -----

  /** The address, entry by entry, of a directory below `d` that holds the skill. */
  predicate Leads(d: Directory, address: seq<nat>, s: Skill)
    decreases |address|
  {
    && address != [] && address[0] < |d.entries| && d.entries[address[0]].Dir?
    && var child := d.entries[address[0]].dir;
       if |address| == 1 then OwnSkill(child) == [s] else Leads(child, address[1..], s)
  }

  /** The skills of a scan with their addresses. */
  function Addressed(d: Directory): seq<(seq<nat>, Skill)> {
    AddressedEntries(d.entries, 0)
  }

  function AddressedEntries(entries: seq<Entry>, at: nat): seq<(seq<nat>, Skill)> {
    if entries == [] then [] else AddressedEntry(entries[0], at) + AddressedEntries(entries[1..], at + 1)
  }

  function AddressedEntry(e: Entry, at: nat): seq<(seq<nat>, Skill)> {
    if !e.Dir? then []
    else
      var own := OwnSkill(e.dir);
      (if own == [] then [] else [([at], own[0])]) + Under(at, Addressed(e.dir))
  }

  function Under(at: nat, found: seq<(seq<nat>, Skill)>): (r: seq<(seq<nat>, Skill)>)
    ensures |r| == |found| && forall i :: 0 <= i < |r| ==> r[i] == ([at] + found[i].0, found[i].1)
  {
    seq(|found|, i requires 0 <= i < |found| => ([at] + found[i].0, found[i].1))
  }

  function SkillsOf(found: seq<(seq<nat>, Skill)>): (r: seq<Skill>)
    ensures |r| == |found| && forall i :: 0 <= i < |r| ==> r[i] == found[i].1
  {
    seq(|found|, i requires 0 <= i < |found| => found[i].1)
  }

  lemma SkillsOfConcat(a: seq<(seq<nat>, Skill)>, b: seq<(seq<nat>, Skill)>)
    ensures SkillsOf(a + b) == SkillsOf(a) + SkillsOf(b)
  {
  }

  lemma EntrySkills(e: Entry, at: nat)
    requires e.Dir? ==> SkillsOf(Addressed(e.dir)) == Preorder(e.dir)
    ensures SkillsOf(AddressedEntry(e, at)) == PreorderEntry(e)
  {
    hide Addressed, Preorder, OwnSkill;
    if e.Dir? {
      OwnIsOne(e.dir);
      var found, own := Addressed(e.dir), OwnSkill(e.dir);
      assert SkillsOf(Under(at, found)) == SkillsOf(found);
      var head := if own == [] then [] else [([at], own[0])];
      assert SkillsOf(head) == own;
      SkillsOfConcat(head, Under(at, found));
    }
  }

  lemma {:induction false} SkillsInOrder(d: Directory, k: nat)
    requires k <= |d.entries|
    ensures SkillsOf(AddressedEntries(d.entries[k..], k)) == PreorderEntries(d.entries[k..])
    decreases d, |d.entries| - k
  {
    hide SkillsOf, AddressedEntry, PreorderEntry;
    if k < |d.entries| {
      var e := d.entries[k];
      SkillsInOrder(d, k + 1);
      assert d.entries[k..][0] == e && d.entries[k..][1..] == d.entries[k + 1..];
      if e.Dir? {
        SkillsInOrder(e.dir, 0);
        assert e.dir.entries[0..] == e.dir.entries;
      }
      EntrySkills(e, k);
      SkillsOfConcat(AddressedEntry(e, k), AddressedEntries(d.entries[k + 1..], k + 1));
    } else {
      assert SkillsOf([]) == [] by { NoSkills(); }
    }
  }

  lemma NoSkills()
    ensures SkillsOf([]) == []
  {
  }

  lemma UnderHolds(at: nat, found: seq<(seq<nat>, Skill)>, address: seq<nat>, s: Skill)
    ensures (address, s) in Under(at, found) <==> address != [] && address[0] == at && (address[1..], s) in found
  {
    if (address, s) in Under(at, found) {
      var i :| 0 <= i < |found| && Under(at, found)[i] == (address, s);
      assert (found[i].0, found[i].1) in found && address[1..] == found[i].0;
    }
    if address != [] && address[0] == at && (address[1..], s) in found {
      var i :| 0 <= i < |found| && found[i] == (address[1..], s);
      assert [at] + address[1..] == address && Under(at, found)[i] == (address, s);
    }
  }

  /** An entry's addresses start with its position and go on, if they do, inside it. */
  lemma EntryAddresses(e: Entry, at: nat, address: seq<nat>, s: Skill)
    requires e.Dir? ==> ([], s) !in Addressed(e.dir)
    ensures (address, s) in AddressedEntry(e, at) <==>
      && e.Dir? && address != [] && address[0] == at
      && (if |address| == 1 then OwnSkill(e.dir) == [s] else (address[1..], s) in Addressed(e.dir))
  {
    hide Addressed, OwnSkill, Under;
    if e.Dir? {
      OwnIsOne(e.dir);
      UnderHolds(at, Addressed(e.dir), address, s);
      if address != [] && address[0] == at && |address| == 1 {
        assert address == [at] && address[1..] == [];
      }
    }
  }

  lemma OwnIsOne(d: Directory)
    ensures |OwnSkill(d)| <= 1
  {
  }

  lemma {:induction false} AddressesLead(d: Directory, k: nat, address: seq<nat>, s: Skill)
    requires k <= |d.entries|
    ensures (address, s) in AddressedEntries(d.entries[k..], k) <==> Leads(d, address, s) && k <= address[0]
    ensures (address, s) in AddressedEntries(d.entries[k..], k) ==> address != []
    decreases d, |d.entries| - k
  {
    hide OwnSkill;
    if k < |d.entries| {
      var e := d.entries[k];
      AddressesLead(d, k + 1, address, s);
      assert d.entries[k..][0] == e && d.entries[k..][1..] == d.entries[k + 1..];
      if e.Dir? {
        forall a, t ensures (a, t) in Addressed(e.dir) <==> Leads(e.dir, a, t) {
          AddressesLead(e.dir, 0, a, t);
          assert e.dir.entries[0..] == e.dir.entries;
        }
      }
      EntryAddresses(e, k, address, s);
    }
  }

  lemma InAddressed(d: Directory, address: seq<nat>, s: Skill)
    ensures (address, s) in Addressed(d) <==> Leads(d, address, s)
  {
    AddressesLead(d, 0, address, s);
    assert d.entries[0..] == d.entries;
  }

  predicate Apart(found: seq<(seq<nat>, Skill)>) {
    forall i, j :: 0 <= i < j < |found| ==> found[i].0 != found[j].0
  }

  lemma EntryApart(e: Entry, at: nat)
    requires e.Dir? ==> Apart(Addressed(e.dir))
    ensures Apart(AddressedEntry(e, at))
    ensures forall i :: 0 <= i < |AddressedEntry(e, at)| ==>
      AddressedEntry(e, at)[i].0 != [] && AddressedEntry(e, at)[i].0[0] == at
  {
    hide Addressed, OwnSkill;
    if e.Dir? {
      var found := Addressed(e.dir);
      forall i | 0 <= i < |found| ensures found[i].0 != [] {
        InAddressed(e.dir, found[i].0, found[i].1);
        assert (found[i].0, found[i].1) in found;
      }
      forall i, j | 0 <= i < j < |found| ensures [at] + found[i].0 != [at] + found[j].0 {
        assert ([at] + found[i].0)[1..] == found[i].0 && ([at] + found[j].0)[1..] == found[j].0;
      }
    }
  }

  lemma {:induction false} AddressesApart(d: Directory, k: nat)
    requires k <= |d.entries|
    ensures Apart(AddressedEntries(d.entries[k..], k))
    decreases d, |d.entries| - k
  {
    if k < |d.entries| {
      var e := d.entries[k];
      AddressesApart(d, k + 1);
      assert d.entries[k..][0] == e && d.entries[k..][1..] == d.entries[k + 1..];
      if e.Dir? {
        AddressesApart(e.dir, 0);
        assert e.dir.entries[0..] == e.dir.entries;
      }
      EntryApart(e, k);
      var first, rest := AddressedEntry(e, k), AddressedEntries(d.entries[k + 1..], k + 1);
      forall j | 0 <= j < |rest| ensures rest[j].0 != [] && rest[j].0[0] > k {
        AddressesLead(d, k + 1, rest[j].0, rest[j].1);
        assert (rest[j].0, rest[j].1) in rest;
      }
    }
  }

  /**
   The skills of a scan are, in order and each once, those of the addresses below the root that lead to one; the
   root itself has no address, so its own files are never looked at.
   */
  lemma ScanFinds(root: Directory)
    ensures SkillsOf(Addressed(root)) == Preorder(root) && Apart(Addressed(root))
    ensures forall address, s :: (address, s) in Addressed(root) <==> Leads(root, address, s)
  {
    SkillsInOrder(root, 0);
    AddressesApart(root, 0);
    assert root.entries[0..] == root.entries;
    forall address, s ensures (address, s) in Addressed(root) <==> Leads(root, address, s) {
      InAddressed(root, address, s);
    }
  }

  // ----- the recursive scan -----

  /** `loaded` is the vector pushed to; on an error its contents are of no use. */
  method ScanDirRecursive(dir: Directory, skills: seq<Skill>) returns (ok: bool, loaded: seq<Skill>)
    ensures ok <==> Clean(dir)
    ensures ok ==> loaded == skills + Preorder(dir)
    decreases dir
  {
    loaded := skills;
    if !dir.readable { return false, loaded; }
    for i := 0 to |dir.entries|
      invariant forall j :: 0 <= j < i ==> CleanEntry(dir.entries[j])
      invariant loaded + PreorderEntries(dir.entries[i..]) == skills + Preorder(dir)
    {
      assert dir.entries[i..][1..] == dir.entries[i + 1..];
      var entry := dir.entries[i];
      if entry.Unreadable? {
        assert !CleanEntry(dir.entries[i]);
        return false, loaded;
      }
      if entry.Dir? {
        if IsSkillDir(entry.dir) {
          var skill := LoadSingleSkill(entry.dir);
          if skill.Err? {
            assert !CleanEntry(dir.entries[i]);
            return false, loaded;
          }
          if skill.value.Some? { loaded := loaded + [skill.value.value]; }
        }
        var done;
        done, loaded := ScanDirRecursive(entry.dir, loaded);
        if !done {
          assert !CleanEntry(dir.entries[i]);
          return false, loaded;
        }
      }
    }
    return true, loaded;
  }

  /** `None`: no such directory. */
  method LoadSkillsFromDir(dir: Option<Directory>) returns (r: Result<seq<Skill>, ScanError>)
    ensures dir.None? ==> r == Ok([])
    ensures dir.Some? ==> (r.Ok? <==> Clean(dir.value)) && (r.Ok? ==> r.value == Preorder(dir.value))
  {
    if dir.None? { return Ok([]); }
    var ok, skills := ScanDirRecursive(dir.value, []);
    return if ok then Ok(skills) else Err(ScanFailed);
  }

  // ----- the scan with a stack -----

  function Children(entries: seq<Entry>): seq<Directory> {
    if entries == [] then []
    else
      var init, e := Children(entries[..|entries| - 1]), Last(entries);
      if e.Dir? then init + [e.dir] else init
  }

  function OwnSkills(entries: seq<Entry>): seq<Skill> {
    if entries == [] then []
    else
      var init, e := OwnSkills(entries[..|entries| - 1]), Last(entries);
      if e.Dir? then init + OwnSkill(e.dir) else init
  }

  predicate EntriesLoad(entries: seq<Entry>) {
    forall i :: 0 <= i < |entries| ==> !entries[i].Unreadable? && (entries[i].Dir? ==> Loads(entries[i].dir))
  }

  predicate AllClean(dirs: seq<Directory>) {
    forall i :: 0 <= i < |dirs| ==> Clean(dirs[i])
  }

  /** The skills below all directories on the stack. */
  function PreorderAll(dirs: seq<Directory>): multiset<Skill> {
    if dirs == [] then multiset{} else PreorderAll(dirs[..|dirs| - 1]) + multiset(Preorder(Last(dirs)))
  }

  function Size(d: Directory): nat {
    1 + SizeEntries(d.entries)
  }

  function SizeEntries(entries: seq<Entry>): nat {
    if entries == [] then 0 else SizeEntry(entries[0]) + SizeEntries(entries[1..])
  }

  function SizeEntry(e: Entry): nat {
    if e.Dir? then Size(e.dir) else 0
  }

  function SizeAll(dirs: seq<Directory>): nat {
    if dirs == [] then 0 else SizeAll(dirs[..|dirs| - 1]) + Size(Last(dirs))
  }

  lemma {:induction false} PreorderSnoc(entries: seq<Entry>, e: Entry)
    ensures PreorderEntries(entries + [e]) == PreorderEntries(entries) + PreorderEntry(e)
    ensures SizeEntries(entries + [e]) == SizeEntries(entries) + SizeEntry(e)
    decreases |entries|
  {
    hide PreorderEntry, SizeEntry;
    if entries == [] {
      assert [] + [e] == [e] && [e][1..] == [];
    } else {
      assert (entries + [e])[1..] == entries[1..] + [e] && (entries + [e])[0] == entries[0];
      PreorderSnoc(entries[1..], e);
    }
  }

  /** A directory's own level and the levels below its children make up what is below it. */
  lemma {:induction false} LevelsAddUp(entries: seq<Entry>)
    ensures multiset(PreorderEntries(entries)) == multiset(OwnSkills(entries)) + PreorderAll(Children(entries))
    ensures SizeAll(Children(entries)) == SizeEntries(entries)
    decreases |entries|
  {
    hide OwnSkill, Preorder;
    if entries != [] {
      var init, e := entries[..|entries| - 1], Last(entries);
      assert entries == init + [e];
      LevelsAddUp(init);
      PreorderSnoc(init, e);
      if e.Dir? {
        var before := Children(init);
        assert (before + [e.dir])[..|before|] == before;
      }
    }
  }

  lemma {:induction false} ChildrenClean(entries: seq<Entry>)
    ensures (forall i :: 0 <= i < |entries| ==> CleanEntry(entries[i]))
       <==> EntriesLoad(entries) && AllClean(Children(entries))
    decreases |entries|
  {
    hide Clean, Loads;
    if entries != [] {
      var init, e := entries[..|entries| - 1], Last(entries);
      assert entries == init + [e];
      ChildrenClean(init);
      if e.Dir? { AllCleanSnoc(Children(init), e.dir); }
      EntriesLoadSnoc(init, e);
      CleanSnoc(init, e);
    }
  }

  predicate EntriesClean(entries: seq<Entry>) {
    forall i :: 0 <= i < |entries| ==> CleanEntry(entries[i])
  }

  lemma CleanSnoc(init: seq<Entry>, e: Entry)
    ensures EntriesClean(init + [e]) <==> EntriesClean(init) && CleanEntry(e)
  {
    hide CleanEntry;
    assert (init + [e])[|init|] == e;
    assert forall i :: 0 <= i < |init| ==> (init + [e])[i] == init[i];
  }

  lemma EntriesLoadSnoc(init: seq<Entry>, e: Entry)
    ensures EntriesLoad(init + [e]) <==> EntriesLoad(init) && !e.Unreadable? && (e.Dir? ==> Loads(e.dir))
  {
    hide Loads;
    assert (init + [e])[|init|] == e;
    assert forall i :: 0 <= i < |init| ==> (init + [e])[i] == init[i];
  }

  lemma AllCleanSnoc(dirs: seq<Directory>, d: Directory)
    ensures AllClean(dirs + [d]) <==> AllClean(dirs) && Clean(d)
  {
    hide Clean;
    assert (dirs + [d])[|dirs|] == d;
    assert forall i :: 0 <= i < |dirs| ==> (dirs + [d])[i] == dirs[i];
  }

  lemma {:induction false} StackConcat(a: seq<Directory>, b: seq<Directory>)
    ensures PreorderAll(a + b) == PreorderAll(a) + PreorderAll(b)
    ensures SizeAll(a + b) == SizeAll(a) + SizeAll(b)
    ensures AllClean(a + b) <==> AllClean(a) && AllClean(b)
    decreases |b|
  {
    hide Clean, Preorder, Size;
    if b == [] {
      assert a + b == a;
    } else {
      var init, d := b[..|b| - 1], Last(b);
      assert (a + b)[..|a + b| - 1] == a + init && b == init + [d] && a + b == (a + init) + [d];
      StackConcat(a, init);
      AllCleanSnoc(a + init, d);
      AllCleanSnoc(init, d);
    }
  }

  /** One directory listed: the skills of its children, and the stack with the children on top. */
  method ListDirectory(current: Directory, skills: seq<Skill>, dirs: seq<Directory>)
    returns (ok: bool, loaded: seq<Skill>, stack: seq<Directory>)
    ensures ok <==> current.readable && EntriesLoad(current.entries)
    ensures ok ==> loaded == skills + OwnSkills(current.entries) && stack == dirs + Children(current.entries)
  {
    loaded, stack := skills, dirs;
    if !current.readable { return false, loaded, stack; }
    for i := 0 to |current.entries|
      invariant EntriesLoad(current.entries[..i])
      invariant loaded == skills + OwnSkills(current.entries[..i]) && stack == dirs + Children(current.entries[..i])
    {
      var entry := current.entries[i];
      assert current.entries[..i + 1] == current.entries[..i] + [entry];
      EntriesLoadSnoc(current.entries[..i], entry);
      if entry.Unreadable? {
        return false, loaded, stack;
      }
      if entry.Dir? {
        if IsSkillDir(entry.dir) {
          var skill := LoadSingleSkill(entry.dir);
          if skill.Err? {
            return false, loaded, stack;
          }
          if skill.value.Some? { loaded := loaded + [skill.value.value]; }
        }
        stack := stack + [entry.dir];
      }
    }
    assert current.entries[..|current.entries|] == current.entries;
    return true, loaded, stack;
  }

  method LoadSkillsFromDirAsync(dir: Option<Directory>) returns (r: Result<seq<Skill>, ScanError>)
    ensures dir.None? ==> r == Ok([])
    ensures dir.Some? ==>
      (r.Ok? <==> Clean(dir.value)) && (r.Ok? ==> multiset(r.value) == multiset(Preorder(dir.value)))
  {
    hide Clean, Preorder, Size, AllClean, PreorderAll, SizeAll, EntriesLoad, OwnSkills, Children;
    StackStart();
    if dir.None? { return Ok([]); }
    var skills, dirs := [], [dir.value];
    Pushed(dir.value);
    while dirs != []
      invariant Clean(dir.value) <==> AllClean(dirs)
      invariant multiset(Preorder(dir.value)) == multiset(skills) + PreorderAll(dirs)
      decreases SizeAll(dirs)
    {
      var current := Last(dirs);
      ghost var before := dirs;
      dirs := dirs[..|dirs| - 1];
      assert before == dirs + [current];
      var ok, loaded, stack := ListDirectory(current, skills, dirs);
      Popped(dirs, current);
      if !ok { return Err(ScanFailed); }
      skills, dirs := loaded, stack;
    }
    return Ok(skills);
  }

  lemma StackStart()
    ensures AllClean([]) && PreorderAll([]) == multiset{}
  {
  }

  lemma Pushed(d: Directory)
    ensures AllClean([d]) <==> Clean(d)
    ensures PreorderAll([d]) == multiset(Preorder(d))
  {
    hide Clean, Preorder;
    assert [d][..0] == [];
    assert [d][0] == d;
  }

  /** Replacing the directory on top by its children loses nothing but its own level. */
  lemma Popped(dirs: seq<Directory>, current: Directory)
    ensures var before, after := dirs + [current], dirs + Children(current.entries);
      && before[..|before| - 1] == dirs
      && (AllClean(before) <==> AllClean(after) && current.readable && EntriesLoad(current.entries))
      && PreorderAll(before) == PreorderAll(after) + multiset(OwnSkills(current.entries))
      && SizeAll(after) < SizeAll(before)
  {
    var before := dirs + [current];
    assert before[..|before| - 1] == dirs;
    StackConcat(dirs, Children(current.entries));
    AllCleanSnoc(dirs, current);
    ChildrenClean(current.entries);
    LevelsAddUp(current.entries);
  }
}
