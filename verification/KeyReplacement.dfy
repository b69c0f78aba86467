/** Replacing a peer pairing key: the key file is archived, deleted and written afresh, then copied
    over the source file of the first project that lists one. Any file operation may fail. */
module KeyReplacement {
  import opened Options

  datatype Path = Path(folder: string, name: string)

  /** Archive is a readable archive; its member is the key file, had there been one to add. */
  datatype Content = Plain(text: string) | Archive(member: Option<Content>)

  type Files = map<Path, Content>

  /** How an operation ends: Fails is an exception the program catches, Escapes any other. */
  datatype Outcome = Succeeds | Fails(errno: int) | Escapes

  datatype Attempt = Attempt(files: Files, outcome: Outcome)

  datatype Ending<T> = Returned(value: T) | Escaped

  datatype Result<T> = Result(files: Files, ending: Ending<T>)

  const MISSING := 2
  const EXISTS := 17
  const KEY_FILE := "peer_pair_le_key.c"
  const KEY_FOLDER := "peer_pair_le"

  // ---------------------------------------------------------------- file operations

  /** Nothing succeeds on a file that is not there. */
  function OnMissing(o: Outcome): Outcome {
    if o.Succeeds? then Fails(MISSING) else o
  }

  function MadeWritable(files: Files, p: Path, o: Outcome): Outcome {
    if p in files then o else OnMissing(o)
  }

  /** A rename replaces what was there before. */
  function Renamed(files: Files, source: Path, target: Path, o: Outcome): Attempt {
    if o.Succeeds? && source in files then Attempt((files - {source})[target := files[source]], o)
    else Attempt(files, OnMissing(o))
  }

  function Removed(files: Files, p: Path, o: Outcome): Attempt {
    if o.Succeeds? && p in files then Attempt(files - {p}, o) else Attempt(files, OnMissing(o))
  }

  /** A write that was cut short may leave anything behind. */
  function Spoiled(files: Files, p: Path, junk: Option<Content>): Files {
    if junk.Some? then files[p := junk.value] else files
  }

  function Written(files: Files, p: Path, content: Content, o: Outcome, junk: Option<Content>): Attempt {
    if o.Succeeds? then Attempt(files[p := content], o) else Attempt(Spoiled(files, p, junk), o)
  }

  /** A file is never copied onto itself. */
  function Copied(files: Files, source: Path, target: Path, o: Outcome, junk: Option<Content>): Attempt {
    if source !in files then Attempt(files, OnMissing(o))
    else if source == target then Attempt(files, if o.Succeeds? then Escapes else o)
    else Written(files, target, files[source], o, junk)
  }

  // ---------------------------------------------------------------- rename and replace

  /** What happens to each operation of one replacement. */
  datatype Luck = Luck(
    chmod: Outcome, rename: Outcome, chmodBackup: Outcome, remove: Outcome, again: Outcome,
    copy: Outcome, junk: Option<Content>, back: Outcome)

  function Deleted(files: Files, p: Path, chmod: Outcome, remove: Outcome): Attempt {
    var writable := MadeWritable(files, p, chmod);
    if writable.Succeeds? then Removed(files, p, remove) else Attempt(files, writable)
  }

  /** An earlier backup in the way is deleted and the rename tried once more. */
  function SetAside(files: Files, list: Path, backup: Path, luck: Luck): Attempt {
    var writable := MadeWritable(files, list, luck.chmod);
    var first := if writable.Succeeds? then Renamed(files, list, backup, luck.rename) else Attempt(files, writable);
    if first.outcome != Fails(EXISTS) then first
    else
      var deleted := Deleted(files, backup, luck.chmodBackup, luck.remove);
      if deleted.outcome.Succeeds? then Renamed(deleted.files, list, backup, luck.again) else deleted
  }

  function Replaced(files: Files, list: Path, source: Path, backup: Path, luck: Luck): Result<int> {
    var aside := SetAside(files, list, backup, luck);
    match aside.outcome
    case Fails(_) => Result(aside.files, Returned(-1))
    case Escapes => Result(aside.files, Escaped)
    case Succeeds =>
      var copied := Copied(aside.files, source, list, luck.copy, luck.junk);
      match copied.outcome
      case Succeeds => Result(copied.files, Returned(1))
      case Escapes => Result(copied.files, Escaped)
      case Fails(_) =>
        var back := Renamed(copied.files, backup, list, luck.back);
        Result(back.files, if back.outcome.Escapes? then Escaped else Returned(-1))
  }

  ghost predicate Holds(files: Files, p: Path, content: Content) {
    p in files && files[p] == content
  }

  ghost predicate Swapped(before: Files, after: Files, list: Path, source: Path, backup: Path) {
    && list in before && source in before
    && Holds(after, list, before[source])
    && Holds(after, backup, before[list])
  }

  ghost predicate Survives(before: Files, after: Files, list: Path, backup: Path) {
    list in before ==> Holds(after, list, before[list]) || Holds(after, backup, before[list])
  }

  /** Success means both files are where they belong; anything else leaves the original somewhere. */
  ghost predicate KeepsOriginal(files: Files, list: Path, source: Path, backup: Path, luck: Luck) {
    var r := Replaced(files, list, source, backup, luck);
    if r.ending == Returned(1) then Swapped(files, r.files, list, source, backup)
    else Survives(files, r.files, list, backup)
  }

  ghost predicate SameAt(before: Files, after: Files, p: Path) {
    if p in before then Holds(after, p, before[p]) else p !in after
  }

  lemma SettingAsideSame(files: Files, list: Path, backup: Path, luck: Luck, other: Path)
    requires other != list && other != backup
    ensures SameAt(files, SetAside(files, list, backup, luck).files, other)
  {
    var deleted := Deleted(files, backup, luck.chmodBackup, luck.remove);
    assert SameAt(files, deleted.files, other);
    assert SameAt(deleted.files, Renamed(deleted.files, list, backup, luck.again).files, other);
  }

  lemma OnlyTheTwoChange(files: Files, list: Path, source: Path, backup: Path, luck: Luck, other: Path)
    requires other != list && other != backup
    ensures SameAt(files, Replaced(files, list, source, backup, luck).files, other)
  {
    SettingAsideSame(files, list, backup, luck, other);
    var aside := SetAside(files, list, backup, luck).files;
    var copied := Copied(aside, source, list, luck.copy, luck.junk).files;
    assert SameAt(aside, copied, other);
    assert SameAt(copied, Renamed(copied, backup, list, luck.back).files, other);
  }

  const SMOOTH := Luck(Succeeds, Succeeds, Succeeds, Succeeds, Succeeds, Succeeds, None, Succeeds)

  /** The backup name may be neither of the two files, or some run loses the original. */
  lemma ReplaceKeepsOriginalExactly(list: Path, source: Path, backup: Path)
    ensures (forall files: Files, luck: Luck :: KeepsOriginal(files, list, source, backup, luck))
            <==> list != backup && source != backup
  {
    if list == backup || source == backup {
      var files: Files := map[source := Plain("new")][list := Plain("old")];
      var luck := if list == source then SMOOTH.(rename := Fails(EXISTS)) else SMOOTH;
      assert !KeepsOriginal(files, list, source, backup, luck);
    }
  }

  /** A replacement that failed is undone, unless the last rename fails as well. */
  lemma FailureUndone(files: Files, list: Path, source: Path, backup: Path, luck: Luck)
    requires list != backup && list in files
    requires luck.back.Succeeds?
    requires Replaced(files, list, source, backup, luck).ending == Returned(-1)
    ensures Holds(Replaced(files, list, source, backup, luck).files, list, files[list])
  {
  }

  /** Every operation of the replacement that is needed succeeds. */
  predicate AllGoWell(files: Files, list: Path, source: Path, backup: Path, luck: Luck) {
    && list in files && source in files && list != source
    && luck.copy.Succeeds?
    && ((luck.chmod.Succeeds? && luck.rename.Succeeds?)
        || ((luck.chmod == Fails(17) || (luck.chmod.Succeeds? && luck.rename == Fails(17))) && backup in files
            && luck.chmodBackup.Succeeds? && luck.remove.Succeeds? && luck.again.Succeeds?))
  }

  /** A replacement succeeds exactly if each operation needed does: an earlier backup in the way
      (error 17) is deleted first. */
  lemma ReplaceSucceedsExactly(files: Files, list: Path, source: Path, backup: Path, luck: Luck)
    requires list != backup && source != backup
    ensures Replaced(files, list, source, backup, luck).ending == Returned(1)
       <==> AllGoWell(files, list, source, backup, luck)
  {
  }

  /** An earlier backup is found in the way. */
  predicate BackupInTheWay(files: Files, list: Path, luck: Luck) {
    luck.chmod == Fails(17) || (list in files && luck.chmod.Succeeds? && luck.rename == Fails(17))
  }

  /** An exception that is not caught ends the replacement before the copy. */
  predicate AsideRaises(files: Files, list: Path, backup: Path, luck: Luck) {
    || luck.chmod.Escapes?
    || (list in files && luck.chmod.Succeeds? && luck.rename.Escapes?)
    || (BackupInTheWay(files, list, luck)
        && (luck.chmodBackup.Escapes?
            || (backup in files && luck.chmodBackup.Succeeds?
                && (luck.remove.Escapes? || (luck.remove.Succeeds? && luck.again.Escapes?)))))
  }

  predicate AsideGoesWell(files: Files, list: Path, backup: Path, luck: Luck) {
    && list in files
    && ((luck.chmod.Succeeds? && luck.rename.Succeeds?)
        || (BackupInTheWay(files, list, luck) && backup in files
            && luck.chmodBackup.Succeeds? && luck.remove.Succeeds? && luck.again.Succeeds?))
  }

  /** It raises exactly if an operation that is reached raises uncaught; all other failures
      return -1. */
  lemma ReplaceRaisesExactly(files: Files, list: Path, source: Path, backup: Path, luck: Luck)
    requires list != backup && source != backup
    ensures Replaced(files, list, source, backup, luck).ending == Escaped <==>
      || AsideRaises(files, list, backup, luck)
      || (AsideGoesWell(files, list, backup, luck)
          && (luck.copy.Escapes?
              || ((luck.copy.Fails? || source !in files || source == list) && luck.back.Escapes?)))
  {
  }

  /** Without an uncaught exception it returns 1 or -1; a file that is not there is never
      replaced, and an earlier backup of it is left alone. */
  lemma ReplaceReturns(files: Files, list: Path, source: Path, backup: Path, luck: Luck)
    requires list != backup && list != source
    requires !luck.chmod.Escapes? && !luck.rename.Escapes? && !luck.chmodBackup.Escapes?
    requires !luck.remove.Escapes? && !luck.again.Escapes? && !luck.copy.Escapes? && !luck.back.Escapes?
    ensures Replaced(files, list, source, backup, luck).ending in {Returned(1), Returned(-1)}
    ensures list !in files && luck.chmod != Fails(17) ==>
      Replaced(files, list, source, backup, luck) == Result(files, Returned(-1))
  {
  }

  // ---------------------------------------------------------------- finding the file to replace

  /** parses is false for a project whose description cannot be read. */
  datatype Project = Project(configs: seq<string>, sources: seq<Path>, parses: bool)

  predicate EndsWith(s: string, end: string) {
    |end| <= |s| && s[|s| - |end|..] == end
  }

  predicate Wanted(p: Path) {
    p.name == KEY_FILE && EndsWith(p.folder, KEY_FOLDER)
  }

  predicate Relevant(config: string) {
    config == "makefile_project" || config == "debug"
  }

  function FirstWanted(sources: seq<Path>): (list: Option<Path>)
    ensures list.Some? ==> Wanted(list.value) && list.value in sources
    ensures list.None? ==> forall p :: p in sources ==> !Wanted(p)
  {
    if sources == [] then None
    else if Wanted(sources[0]) then Some(sources[0])
    else FirstWanted(sources[1..])
  }

  function ListFile(project: Project): Option<Path> {
    if exists c :: c in project.configs && Relevant(c) then FirstWanted(project.sources) else None
  }

  function Processed(files: Files, project: Project, key: Path, now: string, luck: Luck): Result<int> {
    if !project.parses then Result(files, Escaped)
    else
      match ListFile(project)
      case None => Result(files, Returned(0))
      case Some(list) => Replaced(files, list, key, Path(list.folder, now), luck)
  }

  lemma NothingFoundNothingChanged(files: Files, project: Project, key: Path, now: string, luck: Luck)
    requires Processed(files, project, key, now, luck).ending == Returned(0)
    ensures Processed(files, project, key, now, luck) == Result(files, Returned(0))
  {
  }

  /** Projects are processed until one has the file; with no project at all the result is unset. */
  function Swept(files: Files, projects: seq<Project>, key: Path, now: string, luck: Luck): Result<int>
    decreases |projects|
  {
    if projects == [] then Result(files, Escaped)
    else
      var r := Processed(files, projects[0], key, now, luck);
      if r.ending == Returned(0) && |projects| > 1 then Swept(files, projects[1..], key, now, luck) else r
  }

  /** The list file of the first project that has one. */
  function Hit(projects: seq<Project>): (list: Option<Path>)
    ensures list.Some? ==> Wanted(list.value)
  {
    if projects == [] then None
    else if ListFile(projects[0]).Some? then ListFile(projects[0])
    else Hit(projects[1..])
  }

  /** A sweep replaces the first project's file or touches nothing. */
  lemma {:induction false} SweepHits(files: Files, projects: seq<Project>, key: Path, now: string, luck: Luck)
    ensures var r := Swept(files, projects, key, now, luck);
            || (Hit(projects).Some? &&
                r == Replaced(files, Hit(projects).value, key, Path(Hit(projects).value.folder, now), luck))
            || r == Result(files, Escaped)
            || (Hit(projects).None? && r == Result(files, Returned(0)))
    decreases |projects|
  {
    if projects != [] && |projects| > 1 {
      SweepHits(files, projects[1..], key, now, luck);
    } else if projects != [] {
      assert Hit(projects[1..]).None?;
    }
  }

  predicate IsKeyFile(p: Path) {
    && p.name == "peer_pair_le_key.c"
    && |p.folder| >= 12 && p.folder[|p.folder| - 12..] == "peer_pair_le"
  }

  predicate HasConfig(project: Project) {
    "makefile_project" in project.configs || "debug" in project.configs
  }

  /** A project with a configuration that counts lists the file, and it is its first key file. */
  predicate IsFirstOf(project: Project, list: Path) {
    && HasConfig(project)
    && exists k :: 0 <= k < |project.sources| && project.sources[k] == list && IsKeyFile(list)
         && forall j :: 0 <= j < k ==> !IsKeyFile(project.sources[j])
  }

  predicate HasKeyFile(project: Project) {
    HasConfig(project) && exists k :: 0 <= k < |project.sources| && IsKeyFile(project.sources[k])
  }

  lemma {:induction false} FirstWantedExactly(sources: seq<Path>) returns (k: nat)
    ensures k <= |sources| && forall j :: 0 <= j < k ==> !IsKeyFile(sources[j])
    ensures k < |sources| ==> IsKeyFile(sources[k]) && FirstWanted(sources) == Some(sources[k])
    ensures k == |sources| ==> FirstWanted(sources) == None
  {
    if sources == [] || Wanted(sources[0]) {
      k := 0;
    } else {
      k := FirstWantedExactly(sources[1..]);
      k := k + 1;
      forall j | 0 <= j < k
        ensures !IsKeyFile(sources[j])
      {
        if j > 0 { assert sources[j] == sources[1..][j - 1]; }
      }
    }
  }

  lemma ListFileExactly(project: Project, list: Path)
    ensures ListFile(project) == Some(list) <==> IsFirstOf(project, list)
    ensures ListFile(project) == None <==> !HasKeyFile(project)
  {
    var k := FirstWantedExactly(project.sources);
    assert HasConfig(project) <==> exists c :: c in project.configs && Relevant(c) by {
      assert Relevant("makefile_project") && Relevant("debug");
    }
  }

  /** Project i is the first to list a key file, and all up to it can be read. */
  predicate Reaches(projects: seq<Project>, i: nat, list: Path) {
    && i < |projects| && IsFirstOf(projects[i], list) && projects[i].parses
    && forall j :: 0 <= j < i ==> projects[j].parses && !HasKeyFile(projects[j])
  }

  /** The sweep replaces the first key file of the first project that lists one. */
  lemma {:induction false} SweepReaches(
      files: Files, projects: seq<Project>, key: Path, now: string, luck: Luck, i: nat, list: Path)
    requires Reaches(projects, i, list)
    ensures Swept(files, projects, key, now, luck) == Replaced(files, list, key, Path(list.folder, now), luck)
    ensures Hit(projects) == Some(list)
    decreases |projects|
  {
    ListFileExactly(projects[0], list);
    if i > 0 {
      assert Reaches(projects[1..], i - 1, list);
      SweepReaches(files, projects[1..], key, now, luck, i - 1, list);
    }
  }

  /** Where no project lists one, nothing is touched and nothing found. */
  lemma {:induction false} SweepFindsNone(files: Files, projects: seq<Project>, key: Path, now: string, luck: Luck)
    requires projects != [] && forall j :: 0 <= j < |projects| ==> projects[j].parses && !HasKeyFile(projects[j])
    ensures Swept(files, projects, key, now, luck) == Result(files, Returned(0))
    decreases |projects|
  {
    ListFileExactly(projects[0], Path("", ""));
    if |projects| > 1 { SweepFindsNone(files, projects[1..], key, now, luck); }
  }

  /** A project that cannot be read, before one that lists a key file, ends it uncaught. */
  lemma {:induction false} SweepRaises(
      files: Files, projects: seq<Project>, key: Path, now: string, luck: Luck, i: nat)
    requires i < |projects| && !projects[i].parses
    requires forall j :: 0 <= j < i ==> projects[j].parses && !HasKeyFile(projects[j])
    ensures Swept(files, projects, key, now, luck) == Result(files, Escaped)
    decreases |projects|
  {
    if i > 0 {
      ListFileExactly(projects[0], Path("", ""));
      SweepRaises(files, projects[1..], key, now, luck, i - 1);
    }
  }

  // ---------------------------------------------------------------- the whole replacement

  datatype Choice = Use | Replace | Create

  /** now names the backup and, with a suffix, the archive. */
  datatype Setup = Setup(outpath: string, now: string, choice: Choice, projects: seq<Project>)

  datatype MainLuck = MainLuck(
    archive: Outcome, archiveJunk: Option<Content>, chmod: Outcome, remove: Outcome,
    text: string, create: Outcome, createJunk: Option<Content>,
    replace: Luck, extract: Outcome, extractJunk: Option<Content>)

  function KeyPath(s: Setup): Path {
    Path(s.outpath, KEY_FILE)
  }

  function ArchivePath(s: Setup): Path {
    Path(s.outpath, s.now + ".zip")
  }

  function Archived(files: Files, s: Setup, luck: MainLuck): Attempt {
    var member := if KeyPath(s) in files then Some(files[KeyPath(s)]) else None;
    Written(files, ArchivePath(s), Archive(member), luck.archive, luck.archiveJunk)
  }

  ghost predicate Restorable(files: Files, s: Setup) {
    ArchivePath(s) in files && files[ArchivePath(s)].Archive? && files[ArchivePath(s)].member.Some?
  }

  /** No archive, nothing to do; an archive that is no archive or lacks the key raises uncaught. */
  function Restored(files: Files, s: Setup, luck: MainLuck): Attempt {
    if ArchivePath(s) !in files then Attempt(files, Succeeds)
    else
      match files[ArchivePath(s)]
      case Archive(Some(key)) => Written(files, KeyPath(s), key, luck.extract, luck.extractJunk)
      case _ => Attempt(files, if luck.extract.Succeeds? then Escapes else luck.extract)
  }

  function GivenUp(files: Files, s: Setup, luck: MainLuck): Result<bool> {
    var restored := Restored(files, s, luck);
    Result(restored.files, if restored.outcome.Escapes? then Escaped else Returned(false))
  }

  function Created(files: Files, s: Setup, luck: MainLuck): Attempt {
    Written(files, KeyPath(s), Plain(luck.text), luck.create, luck.createJunk)
  }

  /** That writing the key failed goes unnoticed. */
  function Installed(files: Files, s: Setup, luck: MainLuck): Result<bool> {
    var created := if s.choice.Use? then Attempt(files, Succeeds) else Created(files, s, luck);
    if created.outcome.Escapes? then Result(created.files, Escaped)
    else
      var swept := Swept(created.files, s.projects, KeyPath(s), s.now, luck.replace);
      match swept.ending
      case Escaped => Result(swept.files, Escaped)
      case Returned(v) => if v < 0 then GivenUp(swept.files, s, luck) else Result(swept.files, Returned(v > 0))
  }

  function SetUp(files: Files, s: Setup, luck: MainLuck): Result<bool> {
    if !s.choice.Replace? then Installed(files, s, luck)
    else
      var archived := Archived(files, s, luck);
      match archived.outcome
      case Fails(_) => Result(archived.files, Returned(false))
      case Escapes => Result(archived.files, Escaped)
      case Succeeds =>
        var deleted := Deleted(archived.files, KeyPath(s), luck.chmod, luck.remove);
        match deleted.outcome
        case Fails(_) => GivenUp(deleted.files, s, luck)
        case Escapes => Result(deleted.files, Escaped)
        case Succeeds => Installed(deleted.files, s, luck)
  }

  // ---------------------------------------------------------------- what is kept

  /** No file the replacement touches is the archive. */
  lemma ArchiveApart(s: Setup, folder: string)
    ensures ArchivePath(s) != KeyPath(s)
    ensures ArchivePath(s) != Path(folder, s.now)
    ensures ArchivePath(s) != Path(folder, KEY_FILE)
  {
    var name := s.now + ".zip";
    assert |name| == |s.now| + 4;
    assert name[|name| - 1] == 'p' && KEY_FILE[|KEY_FILE| - 1] == 'c';
  }

  /** Once archived, the key stays in the archive. */
  lemma InstallKeepsArchive(files: Files, s: Setup, luck: MainLuck)
    ensures var after := Installed(files, s, luck).files;
            ArchivePath(s) in files ==> Holds(after, ArchivePath(s), files[ArchivePath(s)])
  {
    ArchiveApart(s, "");
    var created := if s.choice.Use? then Attempt(files, Succeeds) else Created(files, s, luck);
    SweepHits(created.files, s.projects, KeyPath(s), s.now, luck.replace);
    if Hit(s.projects).Some? {
      var list := Hit(s.projects).value;
      ArchiveApart(s, list.folder);
      OnlyTheTwoChange(created.files, list, KeyPath(s), Path(list.folder, s.now), luck.replace, ArchivePath(s));
    }
  }

  /** Whatever fails, a key being replaced is still in the key file or in the archive. */
  lemma OldKeySurvives(files: Files, s: Setup, luck: MainLuck)
    requires s.choice.Replace? && KeyPath(s) in files
    ensures var after := SetUp(files, s, luck).files;
            || Holds(after, KeyPath(s), files[KeyPath(s)])
            || Holds(after, ArchivePath(s), Archive(Some(files[KeyPath(s)])))
  {
    ArchiveApart(s, "");
    var deleted := Deleted(Archived(files, s, luck).files, KeyPath(s), luck.chmod, luck.remove);
    InstallKeepsArchive(deleted.files, s, luck);
  }

  /** Giving up ends with False, or raises exactly if extraction raises uncaught or the archive
      that is there has no key in it. */
  lemma GivingUpEndsExactly(files: Files, s: Setup, luck: MainLuck)
    ensures GivenUp(files, s, luck).ending in {Returned(false), Escaped}
    ensures GivenUp(files, s, luck).ending == Escaped <==>
      && Path(s.outpath, s.now + ".zip") in files
      && (luck.extract.Escapes? || (luck.extract.Succeeds? && !Restorable(files, s)))
    ensures luck.extract.Succeeds? && Restorable(files, s) ==>
      GivenUp(files, s, luck).files ==
        files[Path(s.outpath, "peer_pair_le_key.c") := files[Path(s.outpath, s.now + ".zip")].member.value]
    ensures Path(s.outpath, s.now + ".zip") !in files ==> GivenUp(files, s, luck).files == files
  {
  }

  /** A replacement of the key that cannot begin leaves the key where it is: archiving that fails
      ends it, and deletion that fails gives up. */
  lemma CannotReplaceKey(files: Files, s: Setup, luck: MainLuck)
    requires s.choice.Replace? && KeyPath(s) in files
    requires luck.archive.Fails? || (luck.archive.Succeeds? && luck.extract.Succeeds?)
    requires luck.archive.Fails? || luck.chmod.Fails? || (luck.chmod.Succeeds? && luck.remove.Fails?)
    ensures SetUp(files, s, luck).ending == Returned(false)
    ensures Holds(SetUp(files, s, luck).files, KeyPath(s), files[KeyPath(s)])
  {
    ArchiveApart(s, "");
  }

  /** A replacement that gives up puts the old key back, if the archive can be read and some
      project had the file. */
  lemma GivingUpRestoresKey(files: Files, s: Setup, luck: MainLuck)
    requires s.choice.Replace? && KeyPath(s) in files
    requires Hit(s.projects).Some? && luck.extract.Succeeds?
    requires SetUp(files, s, luck).ending == Returned(false)
    ensures Holds(SetUp(files, s, luck).files, KeyPath(s), files[KeyPath(s)])
  {
    ArchiveApart(s, "");
    var deleted := Deleted(Archived(files, s, luck).files, KeyPath(s), luck.chmod, luck.remove);
    if Archived(files, s, luck).outcome.Succeeds? && deleted.outcome.Succeeds? {
      var created := Created(deleted.files, s, luck);
      SweepHits(created.files, s.projects, KeyPath(s), s.now, luck.replace);
      var list := Hit(s.projects).value;
      ArchiveApart(s, list.folder);
      OnlyTheTwoChange(created.files, list, KeyPath(s), Path(list.folder, s.now), luck.replace, ArchivePath(s));
    }
  }

  /** Success: the first project's file has the key, its former content the backup name. */
  lemma SuccessInstallsKey(files: Files, s: Setup, luck: MainLuck)
    requires s.now != KEY_FILE
    requires SetUp(files, s, luck).ending == Returned(true)
    ensures Hit(s.projects).Some?
    ensures var list := Hit(s.projects).value;
            var after := SetUp(files, s, luck).files;
            && list in files && Holds(after, Path(list.folder, s.now), files[list])
            && (s.choice.Use? ==> KeyPath(s) in files && Holds(after, list, files[KeyPath(s)]))
            && (!s.choice.Use? && luck.create.Succeeds? ==> Holds(after, list, Plain(luck.text)))
  {
    var before := if s.choice.Replace?
      then Deleted(Archived(files, s, luck).files, KeyPath(s), luck.chmod, luck.remove).files else files;
    var created := if s.choice.Use? then Attempt(before, Succeeds) else Created(before, s, luck);
    SweepHits(created.files, s.projects, KeyPath(s), s.now, luck.replace);
    var list := Hit(s.projects).value;
    ArchiveApart(s, list.folder);
    ReplaceKeepsOriginalExactly(list, KeyPath(s), Path(list.folder, s.now));
    assert KeepsOriginal(created.files, list, KeyPath(s), Path(list.folder, s.now), luck.replace);
    assert list != KeyPath(s);
  }

  /** There is a key to install by the time the projects are searched. */
  predicate KeyReady(files: Files, s: Setup, luck: MainLuck) {
    match s.choice
    case Use => KeyPath(s) in files
    case Create =>
      luck.create.Succeeds? || (luck.create.Fails? && (luck.createJunk.Some? || KeyPath(s) in files))
    case Replace =>
      && KeyPath(s) in files && luck.archive.Succeeds? && luck.chmod.Succeeds? && luck.remove.Succeeds?
      && (luck.create.Succeeds? || (luck.create.Fails? && luck.createJunk.Some?))
  }

  /** The program succeeds exactly if there is a key to install and each operation that installs
      it in the first project listing a key file succeeds. */
  lemma SetUpSucceedsExactly(files: Files, s: Setup, luck: MainLuck, i: nat, list: Path)
    requires Reaches(s.projects, i, list) && s.now != KEY_FILE && list != KeyPath(s)
    ensures SetUp(files, s, luck).ending == Returned(true) <==>
      && KeyReady(files, s, luck)
      && AllGoWell(files[KeyPath(s) := Plain("")], list, KeyPath(s), Path(list.folder, s.now), luck.replace)
  {
    ArchiveApart(s, list.folder);
    var before := if s.choice.Replace?
      then Deleted(Archived(files, s, luck).files, KeyPath(s), luck.chmod, luck.remove).files else files;
    InstallSucceedsExactly(before, s, luck, i, list);
  }

  lemma InstallSucceedsExactly(files: Files, s: Setup, luck: MainLuck, i: nat, list: Path)
    requires Reaches(s.projects, i, list) && s.now != KEY_FILE && list != KeyPath(s)
    ensures
      var created := if s.choice.Use? then Attempt(files, Succeeds) else Created(files, s, luck);
      Installed(files, s, luck).ending == Returned(true) <==>
        && !created.outcome.Escapes? && KeyPath(s) in created.files
        && AllGoWell(created.files, list, KeyPath(s), Path(list.folder, s.now), luck.replace)
  {
    var created := if s.choice.Use? then Attempt(files, Succeeds) else Created(files, s, luck);
    SweepReaches(created.files, s.projects, KeyPath(s), s.now, luck.replace, i, list);
    ReplaceSucceedsExactly(created.files, list, KeyPath(s), Path(list.folder, s.now), luck.replace);
  }

  const EASY := MainLuck(Succeeds, None, Succeeds, Succeeds, "fresh", Succeeds, None, SMOOTH, Succeeds, None)

  /** A key is to be created, and its creation ends like this. */
  predicate Creates(s: Setup, luck: MainLuck, text: string, create: Outcome, junk: Option<Content>) {
    !s.choice.Use? && s.now != KEY_FILE && luck.text == text && luck.create == create && luck.createJunk == junk
  }

  /** A failed key generation is not noticed: what it left behind is installed, or else the key
      that was there before. */
  lemma FailedCreationInstalled(text: string, errno: int, junk: Option<Content>, stale: Content)
      returns (files: Files, s: Setup, luck: MainLuck)
    ensures s.choice.Create? && Creates(s, luck, text, Fails(errno), junk)
    ensures SetUp(files, s, luck).ending == Returned(true) && Hit(s.projects).Some?
    ensures Holds(SetUp(files, s, luck).files, Hit(s.projects).value, if junk.Some? then junk.value else stale)
  {
    var list := Path(KEY_FOLDER, KEY_FILE);
    files := map[list := Plain("old"), Path("keys", KEY_FILE) := stale];
    s := Setup("keys", "now", Create, [OneFile(list)]);
    luck := EASY.(text := text, create := Fails(errno), createJunk := junk);
    OneFileHit(list);
  }

  ghost predicate FreshKeyInstalled(files: Files, s: Setup, luck: MainLuck) {
    SetUp(files, s, luck).ending == Returned(true) ==>
      Hit(s.projects).Some? && Holds(SetUp(files, s, luck).files, Hit(s.projects).value, Plain(luck.text))
  }

  /** Success means that the fresh key is installed, whatever else happens, exactly if creating
      it succeeded, raised uncaught, or left the whole key behind when it failed. */
  lemma FreshKeyExactly(text: string, create: Outcome, junk: Option<Content>)
    ensures (forall files: Files, s: Setup, luck: MainLuck {:trigger FreshKeyInstalled(files, s, luck)} ::
               Creates(s, luck, text, create, junk) ==> FreshKeyInstalled(files, s, luck))
            <==> !create.Fails? || junk == Some(Plain(text))
  {
    if !create.Fails? || junk == Some(Plain(text)) {
      forall files: Files, s: Setup, luck: MainLuck | Creates(s, luck, text, create, junk)
        ensures FreshKeyInstalled(files, s, luck)
      {
        FreshKey(files, s, luck);
      }
    } else {
      var files, s, luck := FailedCreationInstalled(text, create.errno, junk, Archive(None));
      assert Creates(s, luck, text, create, junk) && !FreshKeyInstalled(files, s, luck);
    }
  }

  lemma FreshKey(files: Files, s: Setup, luck: MainLuck)
    requires Creates(s, luck, luck.text, luck.create, luck.createJunk)
    requires !luck.create.Fails? || luck.createJunk == Some(Plain(luck.text))
    ensures FreshKeyInstalled(files, s, luck)
  {
    var lucky := luck.(create := Succeeds);
    if SetUp(files, s, luck).ending == Returned(true) {
      assert !luck.create.Escapes?;
      SameOnceCreated(files, s, luck);
      SuccessInstallsKey(files, s, lucky);
    }
  }

  /** A failed creation that left the whole key is as good as a successful one. */
  lemma SameOnceCreated(files: Files, s: Setup, luck: MainLuck)
    requires luck.create.Succeeds? || (luck.create.Fails? && luck.createJunk == Some(Plain(luck.text)))
    ensures SetUp(files, s, luck) == SetUp(files, s, luck.(create := Succeeds))
  {
  }

  function OneFile(list: Path): Project {
    Project(["debug"], [list], true)
  }

  lemma OneFileHit(list: Path)
    requires Wanted(list)
    ensures ListFile(OneFile(list)) == Some(list)
    ensures Hit([OneFile(list)]) == Some(list)
  {
    var project := OneFile(list);
    assert project.configs[0] == "debug" && Relevant(project.configs[0]);
  }

  ghost predicate KeepsKey(files: Files, s: Setup, luck: MainLuck)
    requires KeyPath(s) in files
  {
    Holds(SetUp(files, s, luck).files, KeyPath(s), files[KeyPath(s)])
  }

  /** Using an existing key never changes it, unless an archive of the same name is lying about
      or the key file is itself the kind of file that gets replaced. */
  lemma UseKeepsKeyExactly(files: Files, outpath: string, now: string)
    requires KeyPath(Setup(outpath, now, Use, [])) in files
    ensures (forall projects: seq<Project>, luck: MainLuck :: KeepsKey(files, Setup(outpath, now, Use, projects), luck))
            <==> !Restorable(files, Setup(outpath, now, Use, [])) && !EndsWith(outpath, KEY_FOLDER)
  {
    var s0 := Setup(outpath, now, Use, []);
    if !Restorable(files, s0) && !EndsWith(outpath, KEY_FOLDER) {
      forall projects: seq<Project>, luck: MainLuck ensures KeepsKey(files, Setup(outpath, now, Use, projects), luck) {
        UseKeepsKey(files, Setup(outpath, now, Use, projects), luck);
      }
    } else if !Restorable(files, s0) {
      var s := s0.(projects := [OneFile(KeyPath(s0))]);
      var luck := EASY.(replace :=
        if now == KEY_FILE then SMOOTH.(rename := Fails(EXISTS)) else SMOOTH.(back := Escapes));
      OneFileHit(KeyPath(s0));
      assert !KeepsKey(files, Setup(outpath, now, Use, s.projects), luck);
    } else {
      var list := Path(KEY_FOLDER, KEY_FILE);
      var s := s0.(projects := [OneFile(list)]);
      var junk := if files[KeyPath(s)] == Plain("") then Plain("junk") else Plain("");
      var luck := EASY.(replace := SMOOTH.(chmod := Fails(MISSING)), extract := Escapes, extractJunk := Some(junk));
      OneFileHit(list);
      assert !KeepsKey(files, Setup(outpath, now, Use, s.projects), luck);
    }
  }

  lemma UseKeepsKey(files: Files, s: Setup, luck: MainLuck)
    requires s.choice.Use? && KeyPath(s) in files
    requires !Restorable(files, s) && !EndsWith(s.outpath, KEY_FOLDER)
    ensures KeepsKey(files, s, luck)
  {
    SweepHits(files, s.projects, KeyPath(s), s.now, luck.replace);
    if Hit(s.projects).Some? {
      var list := Hit(s.projects).value;
      ArchiveApart(s, list.folder);
      OnlyTheTwoChange(files, list, KeyPath(s), Path(list.folder, s.now), luck.replace, KeyPath(s));
      OnlyTheTwoChange(files, list, KeyPath(s), Path(list.folder, s.now), luck.replace, ArchivePath(s));
    }
  }

  // ---------------------------------------------------------------- the program

  class Disk {
    var files: Files

    constructor (initial: Files)
      ensures files == initial
    {
      files := initial;
    }

    method Chmod(p: Path, o: Outcome) returns (outcome: Outcome)
      ensures outcome == MadeWritable(files, p, o)
    {
      outcome := o;
      if p !in files && o.Succeeds? {
        outcome := Fails(MISSING);
      }
    }

    method Rename(source: Path, target: Path, o: Outcome) returns (outcome: Outcome)
      modifies this
      ensures Attempt(files, outcome) == Renamed(old(files), source, target, o)
    {
      outcome := o;
      if o.Succeeds? {
        if source in files {
          var content := files[source];
          files := files - {source};
          files := files[target := content];
        } else {
          outcome := Fails(MISSING);
        }
      }
    }

    method Remove(p: Path, o: Outcome) returns (outcome: Outcome)
      modifies this
      ensures Attempt(files, outcome) == Removed(old(files), p, o)
    {
      outcome := o;
      if o.Succeeds? {
        if p in files {
          files := files - {p};
        } else {
          outcome := Fails(MISSING);
        }
      }
    }

    method Write(p: Path, content: Content, o: Outcome, junk: Option<Content>)
      modifies this
      ensures Attempt(files, o) == Written(old(files), p, content, o, junk)
    {
      if o.Succeeds? {
        files := files[p := content];
      } else if junk.Some? {
        files := files[p := junk.value];
      }
    }

    method CopyFile(source: Path, target: Path, o: Outcome, junk: Option<Content>) returns (outcome: Outcome)
      modifies this
      ensures Attempt(files, outcome) == Copied(old(files), source, target, o, junk)
    {
      outcome := o;
      if source !in files {
        outcome := OnMissing(o);
      } else if source == target {
        outcome := if o.Succeeds? then Escapes else o;
      } else {
        Write(target, files[source], o, junk);
      }
    }

    method Delete(p: Path, chmod: Outcome, remove: Outcome) returns (outcome: Outcome)
      modifies this
      ensures Attempt(files, outcome) == Deleted(old(files), p, chmod, remove)
    {
      outcome := Chmod(p, chmod);
      if outcome.Succeeds? {
        outcome := Remove(p, remove);
      }
    }

    method RenameAndReplaceFile(list: Path, source: Path, now: string, luck: Luck) returns (ending: Ending<int>)
      modifies this
      ensures Result(files, ending) == Replaced(old(files), list, source, Path(list.folder, now), luck)
    {
      var backup := Path(list.folder, now);
      var outcome := Chmod(list, luck.chmod);
      if outcome.Succeeds? {
        outcome := Rename(list, backup, luck.rename);
      }
      if outcome == Fails(EXISTS) {
        outcome := Delete(backup, luck.chmodBackup, luck.remove);
        if outcome.Succeeds? {
          outcome := Rename(list, backup, luck.again);
        }
      }
      if !outcome.Succeeds? {
        return if outcome.Escapes? then Escaped else Returned(-1);
      }
      outcome := CopyFile(source, list, luck.copy, luck.junk);
      if outcome.Fails? {
        outcome := Rename(backup, list, luck.back);
        return if outcome.Escapes? then Escaped else Returned(-1);
      }
      return if outcome.Escapes? then Escaped else Returned(1);
    }

    method ProcessProject(project: Project, key: Path, now: string, luck: Luck) returns (ending: Ending<int>)
      modifies this
      ensures Result(files, ending) == Processed(old(files), project, key, now, luck)
    {
      if !project.parses {
        return Escaped;
      }
      for i := 0 to |project.configs|
        invariant files == old(files)
        invariant forall c :: c in project.configs[..i] && Relevant(c) ==> FirstWanted(project.sources).None?
      {
        if Relevant(project.configs[i]) {
          for j := 0 to |project.sources|
            invariant files == old(files)
            invariant FirstWanted(project.sources) == FirstWanted(project.sources[j..])
          {
            if Wanted(project.sources[j]) {
              ending := RenameAndReplaceFile(project.sources[j], key, now, luck);
              return;
            }
          }
        }
      }
      return Returned(0);
    }

    method RestoreArchive(s: Setup, luck: MainLuck) returns (outcome: Outcome)
      modifies this
      ensures Attempt(files, outcome) == Restored(old(files), s, luck)
    {
      if ArchivePath(s) !in files {
        return Succeeds;
      }
      outcome := luck.extract;
      match files[ArchivePath(s)] {
        case Archive(Some(key)) => Write(KeyPath(s), key, luck.extract, luck.extractJunk);
        case _ => if outcome.Succeeds? { outcome := Escapes; }
      }
    }

    method Sweep(projects: seq<Project>, key: Path, now: string, luck: Luck) returns (result: Ending<int>)
      modifies this
      ensures Result(files, result) == Swept(old(files), projects, key, now, luck)
    {
      result := Escaped;
      for i := 0 to |projects|
        invariant files == old(files)
        invariant result == if i == 0 then Escaped else Returned(0)
        invariant Swept(files, projects, key, now, luck)
          == if 0 < i == |projects| then Result(files, result) else Swept(files, projects[i..], key, now, luck)
      {
        result := ProcessProject(projects[i], key, now, luck);
        assert projects[i..][1..] == projects[i + 1..];
        if result != Returned(0) {
          return;
        }
        NothingFoundNothingChanged(old(files), projects[i], key, now, luck);
      }
    }

    method Install(s: Setup, luck: MainLuck) returns (ending: Ending<bool>)
      modifies this
      ensures Result(files, ending) == Installed(old(files), s, luck)
    {
      if !s.choice.Use? {
        Write(KeyPath(s), Plain(luck.text), luck.create, luck.createJunk);
        if luck.create.Escapes? {
          return Escaped;
        }
      }
      var result := Sweep(s.projects, KeyPath(s), s.now, luck.replace);
      if result.Escaped? {
        return Escaped;
      }
      if result.value < 0 {
        var outcome := RestoreArchive(s, luck);
        return if outcome.Escapes? then Escaped else Returned(false);
      }
      return Returned(result.value > 0);
    }

    /** The rest of the program once the user has chosen. */
    method SetUpKey(s: Setup, luck: MainLuck) returns (ending: Ending<bool>)
      modifies this
      ensures Result(files, ending) == SetUp(old(files), s, luck)
    {
      if s.choice.Replace? {
        var member := if KeyPath(s) in files then Some(files[KeyPath(s)]) else None;
        Write(ArchivePath(s), Archive(member), luck.archive, luck.archiveJunk);
        if !luck.archive.Succeeds? {
          return if luck.archive.Escapes? then Escaped else Returned(false);
        }
        var outcome := Delete(KeyPath(s), luck.chmod, luck.remove);
        if outcome.Fails? {
          outcome := RestoreArchive(s, luck);
          return if outcome.Escapes? then Escaped else Returned(false);
        }
        if outcome.Escapes? {
          return Escaped;
        }
      }
      ending := Install(s, luck);
    }
  }
}
