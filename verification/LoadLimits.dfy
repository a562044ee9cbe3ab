/** When loading a program cannot end the emulator: one identification for each module, and few enough
    modules for the table. */
module LoadLimits {
  import opened Words
  import opened Options
  import opened Closure

  /** For each name of a module the one identification that is known of it. */
  type Ids = map<Name, Id>

  predicate IsKnown(ids: Ids, id: Id) {
    id.name in ids && ids[id.name] == id
  }

  predicate AllKnown(ids: Ids, mods: seq<Entry>) {
    forall i :: 0 <= i < |mods| ==> IsKnown(ids, mods[i].id)
  }

  predicate ImportsKnown(ids: Ids, f: ObjectFile) {
    IsKnown(ids, f.id) && forall k :: 0 <= k < |f.imports| ==> IsKnown(ids, f.imports[k])
  }

  /** No module is imported with a key other than its own, and there is room for all of them. */
  predicate OneVersion(files: Files, mods: seq<Entry>, ids: Ids) {
    |ids| <= 255 && AllKnown(ids, mods) && forall n :: n in files ==> ImportsKnown(ids, files[n])
  }

  lemma {:induction false} NamesCount(mods: seq<Entry>, names: set<Name>)
    requires Unique(mods) && forall i :: 0 <= i < |mods| ==> mods[i].id.name in names
    ensures |mods| <= |names|
    decreases |mods|
  {
    if mods != [] {
      var init, n := mods[..|mods| - 1], mods[|mods| - 1].id.name;
      assert names == (names - {n}) + {n};
      NamesCount(init, names - {n});
    }
  }

  /** An entry is always found or made. */
  lemma {:induction false} EnterSucceeds(mods: seq<Entry>, id: Id, ids: Ids)
    requires Unique(mods) && |mods| <= MOD_TAB_MAX && AllKnown(ids, mods) && IsKnown(ids, id) && |ids| <= MOD_TAB_MAX
    ensures Enter(mods, id).Some? && AllKnown(ids, Enter(mods, id).value.0)
  {
    if Find(mods, id.name) == |mods| {
      NamesCount(mods, ids.Keys - {id.name});
      assert ids.Keys == (ids.Keys - {id.name}) + {id.name};
      assert |ids| == |ids.Keys|;
    }
  }

  lemma {:induction false} EnterAllSucceeds(mods: seq<Entry>, more: seq<Id>, ids: Ids)
    requires Unique(mods) && |mods| <= MOD_TAB_MAX && AllKnown(ids, mods) && |ids| <= MOD_TAB_MAX
    requires forall k :: 0 <= k < |more| ==> IsKnown(ids, more[k])
    ensures EnterAll(mods, more).Some? && AllKnown(ids, EnterAll(mods, more).value.0)
    decreases |more|
  {
    if more != [] {
      var init := more[..|more| - 1];
      EnterAllSucceeds(mods, init, ids);
      EnterAllKeeps(mods, init);
      EnterSucceeds(EnterAll(mods, init).value.0, more[|more| - 1], ids);
      hide Enter, Unique, AllKnown, IsKnown, Grown;
    }
  }

  lemma {:induction false} ParseSucceeds(t: Table, f: ObjectFile, ids: Ids)
    requires Unique(t.mods) && |t.mods| <= MOD_TAB_MAX && AllKnown(ids, t.mods) && ImportsKnown(ids, f) && |ids| <= MOD_TAB_MAX
    ensures Parsed(t, f).Some? && AllKnown(ids, Parsed(t, f).value.mods)
  {
    EnterSucceeds(t.mods, f.id, ids);
    EnterKeeps(t.mods, f.id);
    hide Enter, EnterAll, Find, Wrap;
    var own := Enter(t.mods, f.id).value;
    var mine := own.0[own.1 := own.0[own.1].(loaded := true, dataOfs := t.dataTop, dataSize := f.size)];
    EnterAllSucceeds(mine, f.imports, ids);
  }

  lemma {:induction false} LoadGoesOn(files: Files, t: Table, n: Name, ids: Ids)
    requires Ready(files, t) && NotLoaded(t.mods, n) && OneVersion(files, t.mods, ids)
    ensures !LoadObj(files, t, n).Ended? && OneVersion(files, LoadObj(files, t, n).t.mods, ids)
    decreases Left(files, t.mods), 0, 0
  {
    hide Parsed, Left, Unique, AllKnown, ImportsKnown;
    if n in files {
      ParseSucceeds(t, files[n], ids);
      ParsedKeeps(t, files[n]);
      ParsedLoads(files, t, n);
      RestGoesOn(files, Parsed(t, files[n]).value, |t.mods| + 1, ids);
    }
  }

  lemma {:induction false} RestGoesOn(files: Files, t: Table, top: nat, ids: Ids)
    requires Ready(files, t) && OneVersion(files, t.mods, ids)
    ensures !LoadRest(files, t, top).Ended? && OneVersion(files, LoadRest(files, t, top).t.mods, ids)
    decreases Left(files, t.mods), 1, MOD_TAB_MAX + 1 - top
  {
    hide Parsed, Left, OneVersion;
    if top < |t.mods| {
      if t.mods[top].loaded {
        RestGoesOn(files, t, top + 1, ids);
      } else {
        LoadGoesOn(files, t, t.mods[top].id.name, ids);
        var o := LoadObj(files, t, t.mods[top].id.name);
        FewerLeft(files, t.mods, o.t.mods, t.mods[top].id.name);
        if o.Whole? {
          RestGoesOn(files, o.t, top + 1, ids);
        }
      }
    }
  }

  /** With one version of each module and at most 255 of them, loading never ends the emulator; and when
      every one of them has a file or is loaded already, the program is loaded with all it imports. */
  lemma {:induction false} LoadSucceeds(files: Files, t: Table, n: Name, ids: Ids)
    requires Ready(files, t) && NotLoaded(t.mods, n) && OneVersion(files, t.mods, ids)
    ensures !LoadObj(files, t, n).Ended?
    ensures n in files && (forall m :: m in ids ==> m in files || m in LoadedNames(t.mods)) ==> LoadObj(files, t, n).Whole?
  {
    hide Parsed, Left, LoadRest, Find, Unique;
    LoadGoesOn(files, t, n, ids);
    var o := LoadObj(files, t, n);
    if n in files && o.Missing? {
      LoadMisses(files, t, n);
      var i :| 0 <= i < |o.t.mods| && !o.t.mods[i].loaded && o.t.mods[i].id.name !in files;
      assert IsKnown(ids, o.t.mods[i].id);
      hide LoadObj;
      if o.t.mods[i].id.name in LoadedNames(t.mods) {
        StillLoaded(t.mods, o.t.mods, i);
      }
    }
  }

  lemma {:induction false} StillLoaded(a: seq<Entry>, b: seq<Entry>, i: nat)
    requires Grown(a, b) && Unique(b) && i < |b| && b[i].id.name in LoadedNames(a)
    ensures b[i].loaded
  {
    var j :| 0 <= j < |a| && a[j].loaded && a[j].id.name == b[i].id.name;
    assert b[j] == a[j];
  }
}
