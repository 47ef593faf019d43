/**
 * The files the metadata store publishes: where each lives, its name, and the
 * names of its in-flight stages. Names decide files: no two artifacts, claims
 * or drivers ever meet in one name or one staging prefix.
 */
module Artifacts {
  import opened Wrappers
  import opened Text
  import opened Names

  datatype Place =
    | JournalPlace(root: string, uid: string)
    | DocumentPlace(root: string, uid: string, request: string)
    | SpecPlace(driver: string, uid: string, request: string)

  /** A staging file is marked by the process and a serial number. */
  datatype Stage = Stage(pid: nat, serial: nat)

  datatype File = File(place: Place, stage: Option<Stage>)

  datatype Dir =
    | LocalRoot(root: string) | MetadataRoot(root: string)
    | ClaimDir(root: string, uid: string) | RequestDir(root: string, uid: string, request: string)
    | CdiRoot

  function DirOf(place: Place): Dir
  {
    match place
    case JournalPlace(root, uid) => ClaimDir(root, uid)
    case DocumentPlace(root, uid, request) => RequestDir(root, uid, request)
    case SpecPlace(_, _, _) => CdiRoot
  }

  function Parent(dir: Dir): Option<Dir>
  {
    match dir
    case LocalRoot(_) => None
    case CdiRoot => None
    case MetadataRoot(root) => Some(LocalRoot(root))
    case ClaimDir(root, _) => Some(MetadataRoot(root))
    case RequestDir(root, uid, _) => Some(ClaimDir(root, uid))
  }

  /** The names the store accepts: a driver is a subdomain, a claim and a request are labels. */
  predicate Accepted(place: Place)
  {
    match place
    case JournalPlace(_, uid) => Label(uid, 64)
    case DocumentPlace(_, uid, request) => Label(uid, 64) && Label(request, 63)
    case SpecPlace(driver, uid, request) => Subdomain(driver, 63) && Label(uid, 64) && Label(request, 63)
  }

  // ----- Names -----

  /** A CDI name's fields, separated by characters none of them contains. */
  function Fields(driver: string, uid: string, request: string, tail: string): string
  {
    driver + ("_" + ("metadata_" + (uid + ("_" + (request + ("." + tail))))))
  }

  function Filename(driver: string, uid: string, request: string): string
  {
    Fields(driver, uid, request, "json")
  }

  function BaseName(place: Place): string
  {
    match place
    case JournalPlace(_, _) => "journal.json"
    case DocumentPlace(_, _, _) => "metadata.json"
    case SpecPlace(driver, uid, request) => Filename(driver, uid, request)
  }

  // ----- Paths -----

  function Depth(dir: Dir): nat
  {
    match dir
    case LocalRoot(_) => 0
    case CdiRoot => 0
    case MetadataRoot(_) => 1
    case ClaimDir(_, _) => 2
    case RequestDir(_, _, _) => 3
  }

  /** A directory's name in its parent; a root has none. */
  function DirName(dir: Dir): string
  {
    match dir
    case LocalRoot(_) => ""
    case CdiRoot => ""
    case MetadataRoot(_) => "dra-device-metadata"
    case ClaimDir(_, uid) => uid
    case RequestDir(_, _, request) => request
  }

  function DirPath(dir: Dir): seq<string>
    decreases Depth(dir)
  {
    if Parent(dir).None? then [] else DirPath(Parent(dir).value) + [DirName(dir)]
  }

  /** Where a published file lies below its root, directory by directory. */
  function PathBelow(place: Place): seq<string>
  {
    DirPath(DirOf(place)) + [BaseName(place)]
  }

  lemma PathsBelow(root: string, driver: string, uid: string, request: string)
    ensures PathBelow(JournalPlace(root, uid)) == ["dra-device-metadata", uid, "journal.json"]
    ensures PathBelow(DocumentPlace(root, uid, request)) == ["dra-device-metadata", uid, request, "metadata.json"]
    ensures PathBelow(SpecPlace(driver, uid, request)) == [driver + "_metadata_" + uid + "_" + request + ".json"]
  {
    assert DirPath(ClaimDir(root, uid)) == DirPath(MetadataRoot(root)) + [uid];
    assert DirPath(MetadataRoot(root)) == DirPath(LocalRoot(root)) + ["dra-device-metadata"];
    FilenameIs(driver, uid, request);
  }

  lemma FilenameIs(driver: string, uid: string, request: string)
    ensures Filename(driver, uid, request) == driver + "_metadata_" + uid + "_" + request + ".json"
  {
    assert "." + "json" == ".json" && "_" + "metadata_" == "_metadata_";
    var a := request + ".json";
    assert driver + "_metadata_" + uid + "_" + request + ".json" == driver + "_metadata_" + (uid + ("_" + a));
    assert "_metadata_" + (uid + ("_" + a)) == "_" + ("metadata_" + (uid + ("_" + a)));
  }

  function StageSuffix(stage: Stage): string
  {
    Numeral(stage.pid) + ("-" + Numeral(stage.serial))
  }

  function StagePrefix(place: Place): string
  {
    ".stage-" + (BaseName(place) + "-")
  }

  function Name(file: File): string
  {
    match file.stage
    case None => BaseName(file.place)
    case Some(stage) => StagePrefix(file.place) + StageSuffix(stage)
  }

  predicate HasPrefix(s: string, prefix: string)
  {
    |prefix| <= |s| && s[..|prefix|] == prefix
  }

  // ----- Names decide their fields -----

  /** A field ends at its first separator. */
  lemma CutEqual(s: string, a: string, x: string, b: string, y: string, c: char)
    requires s == a + ([c] + x) && s == b + ([c] + y) && c !in a && c !in b
    ensures a == b && x == y
  {
    assert s[|a|] == c && s[|b|] == c;
    assert forall i :: 0 <= i < |a| ==> s[i] == a[i];
    assert forall i :: 0 <= i < |b| ==> s[i] == b[i];
    assert a == s[..|a|] && b == s[..|b|];
    assert x == s[|a| + 1..] && y == s[|b| + 1..];
  }

  lemma DropEqual(s: string, a: string, x: string, y: string)
    requires s == a + x && s == a + y
    ensures x == y
  {
    assert x == s[|a|..] && y == s[|a|..];
  }

  lemma AppendFields(driver: string, uid: string, request: string, tail: string, more: string)
    ensures Fields(driver, uid, request, tail) + more == Fields(driver, uid, request, tail + more)
  {
    var a := "." + tail;
    assert a + more == "." + (tail + more);
    var b := request + a;
    assert b + more == request + (a + more);
    var c := "_" + b;
    assert c + more == "_" + (b + more);
    var d := uid + c;
    assert d + more == uid + (c + more);
    var e := "metadata_" + d;
    assert e + more == "metadata_" + (d + more);
    var f := "_" + e;
    assert f + more == "_" + (e + more);
    assert (driver + f) + more == driver + (f + more);
  }

  lemma LabelHasNoSeparator(s: string, limit: nat)
    requires Label(s, limit)
    ensures '_' !in s && '.' !in s
  {
  }

  lemma SubdomainHasNoUnderscore(s: string, limit: nat)
    requires Subdomain(s, limit)
    ensures '_' !in s
  {
    SubdomainChars(s, limit);
  }

  lemma SameFields(d: string, u: string, q: string, t: string, d2: string, u2: string, q2: string, t2: string)
    requires Accepted(SpecPlace(d, u, q)) && Accepted(SpecPlace(d2, u2, q2))
    requires Fields(d, u, q, t) == Fields(d2, u2, q2, t2)
    ensures d == d2 && u == u2 && q == q2 && t == t2
  {
    SubdomainHasNoUnderscore(d, 63);
    SubdomainHasNoUnderscore(d2, 63);
    LabelHasNoSeparator(u, 64);
    LabelHasNoSeparator(u2, 64);
    LabelHasNoSeparator(q, 63);
    LabelHasNoSeparator(q2, 63);
    var r, r2 := q + ("." + t), q2 + ("." + t2);
    var m, m2 := u + ("_" + r), u2 + ("_" + r2);
    CutEqual(Fields(d, u, q, t), d, "metadata_" + m, d2, "metadata_" + m2, '_');
    DropEqual("metadata_" + m, "metadata_", m, m2);
    CutEqual(m, u, r, u2, r2, '_');
    CutEqual(r, q, t, q2, t2, '.');
  }

  lemma SpecNameStart(driver: string, uid: string, request: string)
    requires Accepted(SpecPlace(driver, uid, request))
    ensures Filename(driver, uid, request) != [] && Filename(driver, uid, request)[0] != '.'
  {
    SubdomainStart(driver);
    assert Filename(driver, uid, request)[0] == driver[0];
  }

  lemma SubdomainStart(s: string)
    requires Subdomain(s, 63)
    ensures s != [] && s[0] != '.'
  {
    assert s == [] || s[0] == '.' ==> Split(s, '.')[0] == [];
    assert Split(s, '.')[0] in Split(s, '.');
  }

  lemma NumeralDecides(a: nat, b: nat)
    requires Numeral(a) == Numeral(b)
    ensures a == b
  {
    NumeralMeaning(a);
    NumeralMeaning(b);
  }

  lemma StageSuffixDecides(a: Stage, b: Stage)
    requires StageSuffix(a) == StageSuffix(b)
    ensures a == b
  {
    CutEqual(StageSuffix(a), Numeral(a.pid), Numeral(a.serial), Numeral(b.pid), Numeral(b.serial), '-');
    NumeralDecides(a.pid, b.pid);
    NumeralDecides(a.serial, b.serial);
  }

  lemma Regroup(a: string, b: string, c: string, x: string)
    ensures (a + (b + c)) + x == a + (b + (c + x))
  {
  }

  lemma StagedFields(driver: string, uid: string, request: string, x: string)
    ensures StagePrefix(SpecPlace(driver, uid, request)) + x == ".stage-" + Fields(driver, uid, request, "json" + ("-" + x))
  {
    Regroup(".stage-", Filename(driver, uid, request), "-", x);
    AppendFields(driver, uid, request, "json", "-" + x);
  }

  /** Within one directory, a staging prefix belongs to one place. */
  lemma PrefixDecides(p: Place, q: Place, x: string, y: string)
    requires Accepted(p) && Accepted(q) && DirOf(p) == DirOf(q)
    requires StagePrefix(p) + x == StagePrefix(q) + y
    ensures p == q && x == y
  {
    if p.SpecPlace? {
      StagedFields(p.driver, p.uid, p.request, x);
      StagedFields(q.driver, q.uid, q.request, y);
      var f, g := Fields(p.driver, p.uid, p.request, "json" + ("-" + x)), Fields(q.driver, q.uid, q.request, "json" + ("-" + y));
      DropEqual(".stage-" + f, ".stage-", f, g);
      SameFields(p.driver, p.uid, p.request, "json" + ("-" + x), q.driver, q.uid, q.request, "json" + ("-" + y));
    }
    DropEqual(StagePrefix(p) + x, StagePrefix(p), x, y);
  }

  lemma StartsWith(s: string, prefix: string)
    requires HasPrefix(s, prefix)
    ensures s == prefix + s[|prefix|..]
  {
  }

  lemma StartsApart(s: string, prefix: string)
    requires s != [] && prefix != [] && s[0] != prefix[0]
    ensures !HasPrefix(s, prefix)
  {
  }

  /** A published name never looks like a stage. */
  lemma PublishedIsNoStage(p: Place, q: Place)
    requires Accepted(p) && Accepted(q) && DirOf(p) == DirOf(q)
    ensures !HasPrefix(BaseName(q), StagePrefix(p))
  {
    assert StagePrefix(p)[0] == '.';
    if q.SpecPlace? {
      SpecNameStart(q.driver, q.uid, q.request);
    } else {
      assert BaseName(q)[0] != '.';
    }
    StartsApart(BaseName(q), StagePrefix(p));
  }

  /** Removing by staging prefix removes exactly that place's own stages. */
  lemma PrefixSelects(p: Place, file: File)
    requires Accepted(p) && Accepted(file.place) && DirOf(p) == DirOf(file.place)
    ensures HasPrefix(Name(file), StagePrefix(p)) <==> file.place == p && file.stage.Some?
  {
    if file.stage.None? {
      PublishedIsNoStage(p, file.place);
    } else {
      var suffix := StageSuffix(file.stage.value);
      if HasPrefix(Name(file), StagePrefix(p)) {
        StartsWith(Name(file), StagePrefix(p));
        PrefixDecides(p, file.place, Name(file)[|StagePrefix(p)|..], suffix);
      }
      if file.place == p {
        assert Name(file)[..|StagePrefix(p)|] == StagePrefix(p);
      }
    }
  }

  lemma BaseNameDecides(p: Place, q: Place)
    requires Accepted(p) && Accepted(q) && DirOf(p) == DirOf(q) && BaseName(p) == BaseName(q)
    ensures p == q
  {
    if p.SpecPlace? {
      SameFields(p.driver, p.uid, p.request, "json", q.driver, q.uid, q.request, "json");
    }
  }

  /** Within one directory no two files share a name. */
  lemma NameDecides(a: File, b: File)
    requires Accepted(a.place) && Accepted(b.place) && DirOf(a.place) == DirOf(b.place) && Name(a) == Name(b)
    ensures a == b
  {
    match (a.stage, b.stage)
    case (None, None) => BaseNameDecides(a.place, b.place);
    case (Some(x), Some(y)) =>
      PrefixDecides(a.place, b.place, StageSuffix(x), StageSuffix(y));
      StageSuffixDecides(x, y);
    case (None, Some(y)) =>
      assert HasPrefix(Name(b), StagePrefix(b.place));
      PublishedIsNoStage(b.place, a.place);
    case (Some(x), None) =>
      assert HasPrefix(Name(a), StagePrefix(a.place));
      PublishedIsNoStage(a.place, b.place);
  }
}
