/**
 Loading a dump of OQMD entries: every file of the dump directory whose
 name has no dot is read as a VASP POSCAR; the files that have a companion
 `<name>.json` metadata file are stored with that metadata, completed by the
 user's extras, and the others are skipped. The file system is a parameter.
 */
module OqmdLoad {
  import opened Common
  import opened Atoms
  import SoluteSupercell

  type Candidate = SoluteSupercell.Candidate

  /** The dump directory as the script sees it: the names `glob` lists in
      it, in `glob`'s order, which paths are files, and the two readers. */
  datatype FileSystem = FileSystem(
    entries: seq<string>,
    isFile: string -> bool,
    readVasp: string -> Result<Structure>,
    readJson: string -> Result<Extras>)

  datatype Options = Options(dumpdir: string, extras: Option<string>, dryrun: bool)

  // ---------------------------------------------------------------------------
  // The extras option: `key1,label1|key2,label2`
  // ---------------------------------------------------------------------------

  /** One pipe-separated segment: the fields before and after its first
      comma, up to the next comma (`y[0]`, `y[1]`); a segment without a
      comma has no second field, an IndexError. */
  function ParsePair(segment: string): (r: Result<(string, string)>)
    ensures r.Ok? <==> ',' in segment
    ensures r.Ok? ==>
      var k, v := r.value.0, r.value.1;
      && ',' !in k && ',' !in v
      && |k| + |v| + 1 <= |segment|
      && segment[..|k| + |v| + 1] == k + [','] + v
      && (|k| + |v| + 1 == |segment| || segment[|k| + |v| + 1] == ',')
  {
    var f := Split(segment, ',');
    SplitFindsSep(segment, ',');
    if |f| < 2 then Err("IndexError: list index out of range")
    else
      FirstTwoFields(segment, ',');
      Ok((f[0], f[1]))
  }

  /** The first two fields of a split and the separator between them open
      the string, and a separator or the end follows them. */
  lemma FirstTwoFields(s: string, sep: char)
    requires |Split(s, sep)| >= 2
    ensures var f := Split(s, sep);
      var n := |f[0]| + |f[1]| + 1;
      && n <= |s| && s[..n] == f[0] + [sep] + f[1]
      && (n == |s| || s[n] == sep)
  {
    var f := Split(s, sep);
    JoinSplit(s, sep);
    assert Join(f, sep) == f[0] + [sep] + Join(f[1..], sep);
    if |f| == 2 {
      assert Join(f[1..], sep) == f[1];
    } else {
      assert Join(f[1..], sep) == f[1] + [sep] + Join(f[2..], sep) by {
        assert f[1..][1..] == f[2..];
      }
      assert s == (f[0] + [sep] + f[1]) + [sep] + Join(f[2..], sep);
    }
  }

  /** A later duplicate of the key at position `i` does not follow it. */
  predicate LastOf(pairs: seq<(string, string)>, i: nat)
    requires i < |pairs|
  {
    forall j :: i < j < |pairs| ==> pairs[j].0 != pairs[i].0
  }

  /** The keys of the pairs. */
  function KeysOf(pairs: seq<(string, string)>): set<string> {
    set i | 0 <= i < |pairs| :: pairs[i].0
  }

  lemma KeysOfStep(pairs: seq<(string, string)>)
    requires |pairs| >= 1
    ensures KeysOf(pairs) == KeysOf(pairs[..|pairs| - 1]) + {pairs[|pairs| - 1].0}
  {
    var n := |pairs| - 1;
    forall k | k in KeysOf(pairs) ensures k in KeysOf(pairs[..n]) + {pairs[n].0} {
      var i :| 0 <= i < |pairs| && pairs[i].0 == k;
      if i < n {
        assert pairs[..n][i] == pairs[i];
      }
    }
    forall k | k in KeysOf(pairs[..n]) ensures k in KeysOf(pairs) {
      var i :| 0 <= i < n && pairs[..n][i].0 == k;
      assert pairs[i] == pairs[..n][i];
    }
  }

  /** The dictionary built from the pairs in order: every key present, with
      the label of its last occurrence. */
  function MapOf(pairs: seq<(string, string)>): (m: map<string, string>)
    ensures m.Keys == KeysOf(pairs)
    ensures forall i :: 0 <= i < |pairs| ==> pairs[i].0 in m
    ensures forall i :: 0 <= i < |pairs| && LastOf(pairs, i) ==> m[pairs[i].0] == pairs[i].1
    decreases |pairs|
  {
    if |pairs| == 0 then map[]
    else
      var n := |pairs| - 1;
      var prev := MapOf(pairs[..n]);
      var m := prev[pairs[n].0 := pairs[n].1];
      KeysOfStep(pairs);
      forall i | 0 <= i < |pairs| ensures pairs[i].0 in m && (LastOf(pairs, i) ==> m[pairs[i].0] == pairs[i].1) {
        if i < n {
          assert pairs[..n][i] == pairs[i];
          if LastOf(pairs, i) {
            assert LastOf(pairs[..n], i);
          }
        }
      }
      m
  }

  /** Labels stored as text values. */
  function AsExtras(m: map<string, string>): (e: Extras)
    ensures e.Keys == m.Keys
    ensures forall k :: k in m ==> e[k] == Text(m[k])
  {
    map k | k in m :: Text(m[k])
  }

  /** The extras option: nothing gives no extras; otherwise every segment
      must hold a comma. */
  function ParseExtras(arg: Option<string>): (r: Result<Extras>)
    ensures arg.None? ==> r == Ok(map[])
    ensures arg.Some? ==>
      var segments := Split(arg.value, '|');
      (r.Ok? <==> forall i :: 0 <= i < |segments| ==> ',' in segments[i])
  {
    match arg
    case None => Ok(map[])
    case Some(s) =>
      var segments := Split(s, '|');
      var parsed := seq(|segments|, i requires 0 <= i < |segments| => ParsePair(segments[i]));
      assert forall i :: 0 <= i < |segments| ==> (parsed[i].Ok? <==> ',' in segments[i]);
      match Collect(parsed)
      case Err(e) => Err(e)
      case Ok(pairs) => Ok(AsExtras(MapOf(pairs)))
  }

  /** The option text for a list of pairs. */
  function Encode(pairs: seq<(string, string)>): string
    requires |pairs| >= 1
  {
    Join(seq(|pairs|, i requires 0 <= i < |pairs| => pairs[i].0 + [','] + pairs[i].1), '|')
  }

  predicate Plain(w: string) { ',' !in w && '|' !in w }

  lemma ParsePairOfJoin(k: string, v: string)
    requires Plain(k) && Plain(v)
    ensures ParsePair(k + [','] + v) == Ok((k, v))
  {
    SplitAtSep(k, v, ',');
    SplitNoSep(v, ',');
  }

  /** Pairs free of commas and pipes, written out as the option, parse back
      to their dictionary: each key with its last label. */
  lemma {:induction false} ParseExtrasRoundTrip(pairs: seq<(string, string)>)
    requires |pairs| >= 1
    requires forall i :: 0 <= i < |pairs| ==> Plain(pairs[i].0) && Plain(pairs[i].1)
    ensures ParseExtras(Some(Encode(pairs))) == Ok(AsExtras(MapOf(pairs)))
  {
    var fields := seq(|pairs|, i requires 0 <= i < |pairs| => pairs[i].0 + [','] + pairs[i].1);
    assert forall i :: 0 <= i < |fields| ==> '|' !in fields[i];
    SplitJoin(fields, '|');
    var parsed := seq(|fields|, i requires 0 <= i < |fields| => ParsePair(fields[i]));
    forall i | 0 <= i < |pairs| ensures parsed[i] == Ok(pairs[i]) {
      ParsePairOfJoin(pairs[i].0, pairs[i].1);
    }
    CollectAllOk(parsed, pairs);
  }

  /** An empty option is not "no extras": its single empty segment has no
      comma. */
  lemma EmptyExtrasRejected()
    ensures ParseExtras(Some("")).Err?
  {
    assert Split("", '|') == [""];
  }

  // ---------------------------------------------------------------------------
  // The dump files
  // ---------------------------------------------------------------------------

  /** `dumpdir + '/' + name`, as `glob` reports it. */
  function PathOf(dir: string, name: string): string {
    dir + "/" + name
  }

  /** `os.path.basename`: what follows the last slash. */
  function Basename(path: string): (b: string)
    ensures '/' !in b
  {
    var parts := Split(path, '/');
    parts[|parts| - 1]
  }

  lemma BasenameOfPath(dir: string, name: string)
    requires '/' !in name
    ensures Basename(PathOf(dir, name)) == name
  {
    SplitLast(dir, name, '/');
    SplitNoSep(name, '/');
    assert PathOf(dir, name) == dir + ['/'] + name;
  }

  /** The paths of the entries whose base name holds no dot, in order. */
  function DumpFiles(dir: string, entries: seq<string>): (r: seq<string>)
    ensures |r| <= |entries|
    ensures forall p :: p in r ==> '.' !in Basename(p)
    ensures forall p :: p in r ==> exists e :: e in entries && p == PathOf(dir, e)
    ensures forall e :: e in entries && '.' !in Basename(PathOf(dir, e)) ==> PathOf(dir, e) in r
    decreases |entries|
  {
    if |entries| == 0 then []
    else
      var rest := DumpFiles(dir, entries[1..]);
      assert forall e :: e in entries[1..] ==> e in entries;
      assert forall e :: e in entries && e != entries[0] ==> e in entries[1..];
      var p := PathOf(dir, entries[0]);
      if '.' !in Basename(p) then [p] + rest else rest
  }

  /** The dot test looks at the entry's own name only: a dot in the
      directory does not exclude anything. */
  lemma DumpFilesByName(dir: string, entries: seq<string>, e: string)
    requires e in entries && '/' !in e
    ensures PathOf(dir, e) in DumpFiles(dir, entries) <==> '.' !in e
  {
    BasenameOfPath(dir, e);
  }

  // ---------------------------------------------------------------------------
  // Metadata
  // ---------------------------------------------------------------------------

  /** The user's extras added under the keys the metadata lacks; the
      metadata's own values are kept. */
  function Merge(meta: Extras, extras: Extras): (r: Extras)
    ensures r.Keys == meta.Keys + extras.Keys
    ensures forall k :: k in meta ==> r[k] == meta[k]
    ensures forall k :: k in extras && k !in meta ==> r[k] == extras[k]
  {
    map k | k in meta.Keys + extras.Keys :: if k in meta then meta[k] else extras[k]
  }

  /** Merging the same extras again changes nothing, and merging nothing
      keeps the metadata. */
  lemma MergeIdempotent(meta: Extras, extras: Extras)
    ensures Merge(Merge(meta, extras), extras) == Merge(meta, extras)
    ensures Merge(meta, map[]) == meta
  {
  }

  /** One dump file: the POSCAR is read first, so a failing read raises even
      for a file that has no metadata; without `<path>.json` the file is
      skipped, otherwise the metadata is read and merged. */
  function Load(fs: FileSystem, path: string, extras: Extras): (r: Result<Option<Candidate>>)
    ensures r.Err? <==> fs.readVasp(path).Err? || (fs.isFile(path + ".json") && fs.readJson(path + ".json").Err?)
    ensures r.Ok? ==> (r.value.Some? <==> fs.isFile(path + ".json"))
    ensures r.Ok? && r.value.Some? ==>
      && r.value.value.structure == fs.readVasp(path).value
      && r.value.value.extras == Merge(fs.readJson(path + ".json").value, extras)
  {
    var s :- fs.readVasp(path);
    if !fs.isFile(path + ".json") then Ok(None)
    else
      var meta :- fs.readJson(path + ".json");
      Ok(Some(SoluteSupercell.Candidate(s, Merge(meta, extras))))
  }

  /** The structures the loop hands to the store, in order: one per file
      with metadata; the first failing read stops it. */
  function Entries(fs: FileSystem, paths: seq<string>, extras: Extras): (r: Result<seq<Candidate>>)
    ensures r.Ok? <==> forall i :: 0 <= i < |paths| ==> Load(fs, paths[i], extras).Ok?
    ensures r.Ok? ==> |r.value| <= |paths|
    ensures r.Ok? ==> forall c :: c in r.value ==>
      exists i :: 0 <= i < |paths| && Load(fs, paths[i], extras) == Ok(Some(c))
    ensures r.Ok? ==> forall i :: 0 <= i < |paths| && Load(fs, paths[i], extras).value.Some? ==>
      Load(fs, paths[i], extras).value.value in r.value
    decreases |paths|
  {
    if |paths| == 0 then Ok([])
    else
      var first := Load(fs, paths[0], extras);
      var rest := Entries(fs, paths[1..], extras);
      assert forall i :: 1 <= i < |paths| ==> paths[i] == paths[1..][i - 1];
      if first.Err? then Err(first.reason)
      else if rest.Err? then Err(rest.reason)
      else
        var here := if first.value.Some? then [first.value.value] else [];
        assert forall c :: c in rest.value ==>
          exists i :: 1 <= i < |paths| && Load(fs, paths[i], extras) == Ok(Some(c));
        Ok(here + rest.value)
  }

  /** The loop as the script runs it: each file read and, when it has
      metadata, stored before the next file is read. */
  function LoadAll(tk: SoluteSupercell.Toolkit, fs: FileSystem, db: SoluteSupercell.Db,
                   paths: seq<string>, extras: Extras, dryrun: bool): Result<SoluteSupercell.Db>
    decreases |paths|
  {
    if |paths| == 0 then Ok(db)
    else
      var c :- Load(fs, paths[0], extras);
      match c
      case None => LoadAll(tk, fs, db, paths[1..], extras, dryrun)
      case Some(candidate) =>
        var s :- SoluteSupercell.Store(tk, db, candidate, dryrun);
        LoadAll(tk, fs, s.db, paths[1..], extras, dryrun)
  }

  /** The entries of a list whose first file reads: that file's candidate,
      if any, then the entries of the rest. */
  lemma EntriesStep(fs: FileSystem, paths: seq<string>, extras: Extras)
    requires |paths| > 0 && Load(fs, paths[0], extras).Ok? && Entries(fs, paths[1..], extras).Ok?
    ensures var first := Load(fs, paths[0], extras).value;
      Entries(fs, paths, extras) == Ok((if first.Some? then [first.value] else []) + Entries(fs, paths[1..], extras).value)
  {
  }

  /** The interleaved loop only succeeds when every file reads. */
  lemma {:induction false} LoadAllNeedsEntries(tk: SoluteSupercell.Toolkit, fs: FileSystem, db: SoluteSupercell.Db,
                                               paths: seq<string>, extras: Extras, dryrun: bool)
    requires LoadAll(tk, fs, db, paths, extras, dryrun).Ok?
    ensures Entries(fs, paths, extras).Ok?
    decreases |paths|
  {
    if |paths| > 0 {
      var first := Load(fs, paths[0], extras);
      if first.value.None? {
        LoadAllNeedsEntries(tk, fs, db, paths[1..], extras, dryrun);
      } else {
        var s := SoluteSupercell.Store(tk, db, first.value.value, dryrun);
        LoadAllNeedsEntries(tk, fs, s.value.db, paths[1..], extras, dryrun);
      }
      assert forall i :: 1 <= i < |paths| ==> paths[i] == paths[1..][i - 1];
    }
  }

  /** When every file reads, the interleaved loop stores exactly the
      entries, in order. */
  lemma {:induction false} LoadAllStoresEntries(tk: SoluteSupercell.Toolkit, fs: FileSystem, db: SoluteSupercell.Db,
                                                paths: seq<string>, extras: Extras, dryrun: bool)
    requires Entries(fs, paths, extras).Ok?
    ensures LoadAll(tk, fs, db, paths, extras, dryrun) == SoluteSupercell.StoreAll(tk, db, Entries(fs, paths, extras).value, dryrun)
    decreases |paths|
  {
    if |paths| > 0 {
      var first := Load(fs, paths[0], extras);
      var rest := Entries(fs, paths[1..], extras);
      assert forall i :: 1 <= i < |paths| ==> paths[1..][i - 1] == paths[i];
      EntriesStep(fs, paths, extras);
      var cs := Entries(fs, paths, extras).value;
      if first.value.None? {
        assert cs == rest.value;
        LoadAllStoresEntries(tk, fs, db, paths[1..], extras, dryrun);
        assert LoadAll(tk, fs, db, paths, extras, dryrun) == LoadAll(tk, fs, db, paths[1..], extras, dryrun);
      } else {
        assert cs[0] == first.value.value && cs[1..] == rest.value;
        var s := SoluteSupercell.Store(tk, db, first.value.value, dryrun);
        if s.Ok? {
          LoadAllStoresEntries(tk, fs, s.value.db, paths[1..], extras, dryrun);
          assert LoadAll(tk, fs, db, paths, extras, dryrun) == LoadAll(tk, fs, s.value.db, paths[1..], extras, dryrun);
          assert SoluteSupercell.StoreAll(tk, db, cs, dryrun) == SoluteSupercell.StoreAll(tk, s.value.db, cs[1..], dryrun);
        }
      }
    }
  }

  /** A successful interleaved loop is the store of the entries. */
  lemma LaunchStoresEntries(tk: SoluteSupercell.Toolkit, fs: FileSystem, db: SoluteSupercell.Db,
                            paths: seq<string>, extras: Extras, dryrun: bool)
    ensures LoadAll(tk, fs, db, paths, extras, dryrun).Ok? ==>
      && Entries(fs, paths, extras).Ok?
      && SoluteSupercell.StoreAll(tk, db, Entries(fs, paths, extras).value, dryrun) == LoadAll(tk, fs, db, paths, extras, dryrun)
  {
    if LoadAll(tk, fs, db, paths, extras, dryrun).Ok? {
      LoadAllNeedsEntries(tk, fs, db, paths, extras, dryrun);
      LoadAllStoresEntries(tk, fs, db, paths, extras, dryrun);
    }
  }

  /** `launch`: the extras option, then the dump files in `glob` order. */
  function Launch(tk: SoluteSupercell.Toolkit, fs: FileSystem, db: SoluteSupercell.Db, o: Options): (r: Result<SoluteSupercell.Db>)
    ensures ParseExtras(o.extras).Err? ==> r.Err?
    ensures r.Ok? ==>
      var extras := ParseExtras(o.extras).value;
      var files := DumpFiles(o.dumpdir, fs.entries);
      && Entries(fs, files, extras).Ok?
      && SoluteSupercell.StoreAll(tk, db, Entries(fs, files, extras).value, o.dryrun) == Ok(r.value)
  {
    var extras :- ParseExtras(o.extras);
    var files := DumpFiles(o.dumpdir, fs.entries);
    LaunchStoresEntries(tk, fs, db, files, extras, o.dryrun);
    LoadAll(tk, fs, db, files, extras, o.dryrun)
  }
}
