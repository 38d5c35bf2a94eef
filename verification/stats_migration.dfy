/**
 * The one-shot renaming script of index.ts:5-30. It walks the player statistics
 * directory and renames every `<online uuid>.json` to `<offline uuid>.json`, where the
 * offline UUID is derived from the player's name. The directory is a map from file name
 * to contents; a file's size is the length of its contents. The profile lookup (a web
 * request) and MD5 are collaborators given as functions.
 */
module StatsMigration {
  import opened Options
  import opened JsStrings
  import opened OfflineUuid

  const Ext := ".json"

  /** The statistics directory: file name to file contents. */
  type Dir = map<string, seq<bv8>>

  /**
   * What the script calls but the model does not compute: the profile lookup from an
   * undashed UUID to a player name, and MD5 over the UTF-8 encoding of a string.
   */
  datatype Services = Services(lookup: string -> string, md5: string -> Digest)

  /** The key the script looks a player up by: the file name up to its first dot, undashed. */
  function LookupId(item: string): (id: string)
    ensures '.' !in id && '-' !in id
    ensures forall c :: c in id <==> c in BeforeFirst(item, '.') && c != '-'
  {
    RemoveAll(BeforeFirst(item, '.'), '-')
  }

  /**
   * The key a file named by a dashed UUID is looked up by: the 32 hex digits of that
   * UUID, with nothing added, dropped or reordered.
   */
  lemma LookupOfUuidFile(d: Digest)
    ensures LookupId(Format(d) + Ext) == Hex(d)
  {
    var f := Format(d);
    assert '.' !in f by {
      forall i | 0 <= i < |f| ensures f[i] != '.' {
        if !IsDashPosition(i) {
          assert IsLowerHex(f[i]);
        }
      }
    }
    BeforeFirstAppend(f, Ext, '.');
    FormatWithoutDashes(d);
  }

  /** The name the script moves a statistics file to. */
  function TargetName(item: string, svc: Services): (t: string)
    ensures |t| == 41 && EndsWith(t, Ext)
    ensures IsUuidText(t[..36])
    ensures Parse(t[..36]) == Some(Masked(svc.md5(OfflinePrefix + svc.lookup(LookupId(item)))))
  {
    var t := OfflineUuidOf(svc.lookup(LookupId(item)), svc.md5) + Ext;
    assert t[..36] == OfflineUuidOf(svc.lookup(LookupId(item)), svc.md5);
    t
  }

  /** The target already exists and has the source's size: the script deems it a duplicate. */
  function IsDuplicate(dir: Dir, item: string, target: string): (dup: bool)
    ensures dup ==> item in dir && target in dir
    ensures item in dir && target == item ==> dup
  {
    target in dir && item in dir && |dir[target]| == |dir[item]|
  }

  /** `a` and `b` agree on every name outside `names`. */
  ghost predicate SameExcept(a: Dir, b: Dir, names: set<string>)
  {
    forall n :: n !in names ==> (n in a <==> n in b) && (n in a ==> a[n] == b[n])
  }

  /**
   * One iteration of the loop over the directory listing. `None` is the rejected promise
   * that ends the script: the source file is gone by the time it is looked at.
   */
  function Step(dir: Dir, item: string, svc: Services): (r: Option<Dir>)
    ensures !EndsWith(item, Ext) ==> r == Some(dir)
    ensures EndsWith(item, Ext) ==> (r.None? <==> item !in dir)
    ensures r.Some? ==> SameExcept(dir, r.value, {item, TargetName(item, svc)})
    ensures EndsWith(item, Ext) && IsDuplicate(dir, item, TargetName(item, svc)) ==>
      && r.Some? && item !in r.value
      && var t := TargetName(item, svc);
         t != item ==> t in r.value && r.value[t] == dir[t]
    ensures EndsWith(item, Ext) && item in dir && !IsDuplicate(dir, item, TargetName(item, svc)) ==>
      && r.Some?
      && var t := TargetName(item, svc);
         t in r.value && r.value[t] == dir[item] && (item != t ==> item !in r.value)
  {
    if !EndsWith(item, Ext) then Some(dir)
    else
      var target := TargetName(item, svc);
      if item !in dir then None
      else if IsDuplicate(dir, item, target) then Some(dir - {item})
      else Some((dir - {item})[target := dir[item]])
  }

  /** Where the script ends up: the directory and whether it got through the whole listing. */
  datatype Outcome = Outcome(files: Dir, completed: bool)

  /** The whole loop over a directory listing `items`, one `Step` per entry, in order. */
  function Migrate(dir: Dir, items: seq<string>, svc: Services): (o: Outcome)
    ensures (forall i :: 0 <= i < |items| ==> !EndsWith(items[i], Ext)) ==> o == Outcome(dir, true)
    decreases |items|
  {
    if items == [] then Outcome(dir, true)
    else match Step(dir, items[0], svc)
      case None => Outcome(dir, false)
      case Some(next) => Migrate(next, items[1..], svc)
  }

  /**
   * The loop of index.ts:11-30, step by step on a local copy of the directory.
   * `items` is the listing `readdir` returned before the loop started.
   */
  method MigrateStats(dir: Dir, items: seq<string>, svc: Services) returns (o: Outcome)
    ensures o == Migrate(dir, items, svc)
  {
    var files := dir;
    var i := 0;
    while i < |items|
      invariant 0 <= i <= |items|
      invariant Migrate(files, items[i..], svc) == Migrate(dir, items, svc)
    {
      var item := items[i];
      assert items[i..][1..] == items[i + 1..];
      if EndsWith(item, Ext) {
        var target := TargetName(item, svc);
        if target in files {
          if item !in files {
            return Outcome(files, false);
          }
          if |files[target]| == |files[item]| {
            files := files - {item};
            i := i + 1;
            continue;
          }
          // a size conflict is only reported; the rename below still happens
        }
        if item !in files {
          return Outcome(files, false);
        }
        files := (files - {item})[target := files[item]];
      }
      i := i + 1;
    }
    return Outcome(files, true);
  }

  /** Files whose names do not end in `.json` are never touched, whatever the listing. */
  lemma {:induction false} NonJsonUntouched(dir: Dir, items: seq<string>, svc: Services, n: string)
    requires !EndsWith(n, Ext)
    ensures var o := Migrate(dir, items, svc);
      (n in o.files <==> n in dir) && (n in dir ==> o.files[n] == dir[n])
    decreases |items|
  {
    if items != [] {
      match Step(dir, items[0], svc)
      case None =>
      case Some(next) =>
        assert n != TargetName(items[0], svc);
        NonJsonUntouched(next, items[1..], svc, n);
    }
  }

  /** The script only deletes and moves: every file it leaves holds contents that were there. */
  lemma {:induction false} NothingInvented(dir: Dir, items: seq<string>, svc: Services)
    ensures Migrate(dir, items, svc).files.Values <= dir.Values
    decreases |items|
  {
    if items != [] {
      match Step(dir, items[0], svc)
      case None =>
      case Some(next) =>
        forall v | v in next.Values ensures v in dir.Values {
          var n :| n in next && next[n] == v;
          var item, t := items[0], TargetName(items[0], svc);
          if !EndsWith(item, Ext) || (n != item && n != t) {
            assert n in dir && dir[n] == v;
          } else if n == t && !IsDuplicate(dir, item, t) {
            assert item in dir && dir[item] == v;
          } else {
            assert n in dir && dir[n] == v;
          }
        }
        NothingInvented(next, items[1..], svc);
    }
  }

  /** The number of files never grows: a step removes a name or replaces one by another. */
  lemma {:induction false} NeverGrows(dir: Dir, items: seq<string>, svc: Services)
    ensures |Migrate(dir, items, svc).files.Keys| <= |dir.Keys|
    decreases |items|
  {
    if items != [] {
      match Step(dir, items[0], svc)
      case None =>
      case Some(next) =>
        StepNeverGrows(dir, items[0], svc);
        NeverGrows(next, items[1..], svc);
    }
  }

  lemma StepNeverGrows(dir: Dir, item: string, svc: Services)
    requires Step(dir, item, svc).Some?
    ensures |Step(dir, item, svc).value.Keys| <= |dir.Keys|
  {
    var next := Step(dir, item, svc).value;
    if EndsWith(item, Ext) {
      var t := TargetName(item, svc);
      assert (dir - {item}).Keys == dir.Keys - {item};
      if IsDuplicate(dir, item, t) {
        assert next.Keys == dir.Keys - {item};
      } else {
        assert next.Keys == (dir.Keys - {item}) + {t};
      }
    }
  }

  /**
   * Duplicates are recognised by size alone: a source whose contents differ from the
   * target's but whose size is equal is deleted, and its contents are gone.
   */
  lemma EqualSizeDeletesDifferentContents(item: string, svc: Services)
    requires EndsWith(item, Ext) && TargetName(item, svc) != item
    ensures var t := TargetName(item, svc);
      var dir := map[item := [1], t := [2]];
      Step(dir, item, svc) == Some(map[t := [2]])
  {
    var t := TargetName(item, svc);
    var dir: Dir := map[item := [1], t := [2]];
    assert dir - {item} == map[t := [2]];
  }

  /**
   * A size conflict is reported as needing manual resolution, yet the rename still
   * happens and the target's previous contents are gone.
   */
  lemma ConflictOverwritesTarget(item: string, svc: Services)
    requires EndsWith(item, Ext) && TargetName(item, svc) != item
    ensures var t := TargetName(item, svc);
      var dir := map[item := [1], t := [2, 2]];
      Step(dir, item, svc) == Some(map[t := [1]])
  {
    var t := TargetName(item, svc);
    var dir: Dir := map[item := [1], t := [2, 2]];
    assert (dir - {item})[t := [1]] == map[t := [1]];
  }

  /**
   * A file that already carries the name it would be moved to is its own duplicate:
   * the size test compares it with itself, and the file is deleted.
   */
  lemma SelfNamedFileDeleted(dir: Dir, item: string, svc: Services)
    requires EndsWith(item, Ext) && item in dir && TargetName(item, svc) == item
    ensures Step(dir, item, svc) == Some(dir - {item})
    ensures item !in Step(dir, item, svc).value
  {
  }
}
