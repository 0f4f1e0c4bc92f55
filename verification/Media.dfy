/** The media store: three maps that must stay each other's index through registration, release
    of a scope and expiry. */
module Media {
  import opened Options

  datatype Entry = Entry(path: string, meta: string, storedAt: int)

  /** The three maps. */
  datatype Index = Index(refs: map<string, Entry>, scopeToRefs: map<string, set<string>>,
                         refToScope: map<string, string>)

  predicate InScope(ix: Index, scope: string, ref: string) {
    scope in ix.scopeToRefs && ref in ix.scopeToRefs[scope]
  }

  predicate HasScope(ix: Index, ref: string, scope: string) {
    ref in ix.refToScope && ix.refToScope[ref] == scope
  }

  /** The same keys in the first and the last map, and the scopes exactly the inverse of the last
      map, none of them empty. */
  ghost predicate Consistent(ix: Index) {
    && ix.refs.Keys == ix.refToScope.Keys
    && (forall scope, ref :: InScope(ix, scope, ref) <==> HasScope(ix, ref, scope))
    && (forall scope :: scope in ix.scopeToRefs ==> ix.scopeToRefs[scope] != {})
  }

  /** What a store is for: each ref's entry and scope. */
  datatype Item = Item(entry: Entry, scope: string)

  function View(ix: Index): map<string, Item>
    requires ix.refs.Keys == ix.refToScope.Keys
  {
    map ref | ref in ix.refs :: Item(ix.refs[ref], ix.refToScope[ref])
  }

  /** The maps are determined by the view: two consistent indexes of the same items are equal. */
  lemma ViewDetermines(a: Index, b: Index)
    requires Consistent(a) && Consistent(b) && View(a) == View(b)
    ensures a == b
  {
    assert a.refs.Keys == View(a).Keys == View(b).Keys == b.refs.Keys;
    assert forall ref :: ref in a.refs ==> View(a)[ref] == View(b)[ref];
    assert a.refs == b.refs && a.refToScope == b.refToScope;
    forall scope | scope in a.scopeToRefs
      ensures scope in b.scopeToRefs && a.scopeToRefs[scope] == b.scopeToRefs[scope]
    {
      SameScopes(a, b, scope);
    }
    forall scope | scope in b.scopeToRefs ensures scope in a.scopeToRefs {
      SameScopes(b, a, scope);
    }
    assert a.scopeToRefs == b.scopeToRefs;
  }

  lemma SameScopes(a: Index, b: Index, scope: string)
    requires Consistent(a) && Consistent(b) && a.refToScope == b.refToScope && scope in a.scopeToRefs
    ensures scope in b.scopeToRefs && a.scopeToRefs[scope] == b.scopeToRefs[scope]
  {
    var ref :| ref in a.scopeToRefs[scope];
    assert InScope(a, scope, ref) && HasScope(b, ref, scope) && InScope(b, scope, ref);
    forall r ensures r in a.scopeToRefs[scope] <==> r in b.scopeToRefs[scope] {
      assert InScope(a, scope, r) <==> HasScope(a, r, scope);
      assert InScope(b, scope, r) <==> HasScope(b, r, scope);
    }
  }

  // ------------------------------------------------------------ operations

  function Stored(ix: Index, ref: string, entry: Entry, scope: string): Index {
    var members := if scope in ix.scopeToRefs then ix.scopeToRefs[scope] else {};
    Index(ix.refs[ref := entry], ix.scopeToRefs[scope := members + {ref}], ix.refToScope[ref := scope])
  }

  function Released(ix: Index, scope: string): Index {
    if scope !in ix.scopeToRefs then ix else
    var gone := ix.scopeToRefs[scope];
    Index(ix.refs - gone, ix.scopeToRefs - {scope}, ix.refToScope - gone)
  }

  /** One expired ref leaves all three maps, and its scope if it was the last of it. */
  function Dropped(ix: Index, ref: string): Index {
    var scopes :=
      if ref in ix.refToScope && ix.refToScope[ref] in ix.scopeToRefs then
        var scope := ix.refToScope[ref];
        var left := ix.scopeToRefs[scope] - {ref};
        if left == {} then ix.scopeToRefs - {scope} else ix.scopeToRefs[scope := left]
      else ix.scopeToRefs;
    Index(ix.refs - {ref}, scopes, ix.refToScope - {ref})
  }

  lemma StoreKeeps(ix: Index, ref: string, entry: Entry, scope: string)
    requires Consistent(ix) && ref !in ix.refs
    ensures var ix' := Stored(ix, ref, entry, scope);
            Consistent(ix') && View(ix') == View(ix)[ref := Item(entry, scope)]
  {
    var ix' := Stored(ix, ref, entry, scope);
    forall s, r ensures InScope(ix', s, r) <==> HasScope(ix', r, s) {
      assert InScope(ix, s, r) <==> HasScope(ix, r, s);
    }
  }

  /** Exactly one scope is gone; every other ref resolves as before. */
  lemma ReleaseKeeps(ix: Index, scope: string)
    requires Consistent(ix)
    ensures var ix' := Released(ix, scope);
            && Consistent(ix')
            && View(ix') == map ref | ref in View(ix) && View(ix)[ref].scope != scope :: View(ix)[ref]
  {
    var ix' := Released(ix, scope);
    forall s, r ensures InScope(ix', s, r) <==> HasScope(ix', r, s) {
      assert InScope(ix, s, r) <==> HasScope(ix, r, s);
      assert InScope(ix, scope, r) <==> HasScope(ix, r, scope);
    }
    forall r | r in ix.refs ensures r in ix'.refs <==> ix.refToScope[r] != scope {
      assert InScope(ix, scope, r) <==> HasScope(ix, r, scope);
    }
  }

  lemma DropKeeps(ix: Index, ref: string)
    requires Consistent(ix)
    ensures Consistent(Dropped(ix, ref)) && View(Dropped(ix, ref)) == View(ix) - {ref}
  {
    var ix' := Dropped(ix, ref);
    forall s, r ensures InScope(ix', s, r) <==> HasScope(ix', r, s) {
      assert InScope(ix, s, r) <==> HasScope(ix, r, s);
      if ref in ix.refToScope {
        var scope := ix.refToScope[ref];
        assert HasScope(ix, ref, scope) && InScope(ix, scope, ref);
        assert InScope(ix, scope, r) <==> HasScope(ix, r, scope);
      }
    }
  }

  function ExpiredRefs(refs: map<string, Entry>, cutoff: int): set<string> {
    set ref | ref in refs && refs[ref].storedAt < cutoff
  }

  function PathsOf(refs: map<string, Entry>, gone: set<string>): set<string> {
    set ref | ref in refs && ref in gone :: refs[ref].path
  }

  /** The path belongs to an item of this kind. */
  ghost predicate IsPathOf(items: map<string, Item>, kind: Item -> bool, path: string) {
    exists ref :: ref in items && kind(items[ref]) && items[ref].entry.path == path
  }

  /** The paths released with a scope are those of its items. */
  lemma ReleasedPaths(ix: Index, scope: string)
    requires Consistent(ix)
    ensures var gone := if scope in ix.scopeToRefs then ix.scopeToRefs[scope] else {};
            forall p :: p in PathsOf(ix.refs, gone) <==> IsPathOf(View(ix), (item: Item) => item.scope == scope, p)
  {
    var gone := if scope in ix.scopeToRefs then ix.scopeToRefs[scope] else {};
    forall ref | ref in ix.refs ensures ref in gone <==> View(ix)[ref].scope == scope {
      assert InScope(ix, scope, ref) <==> HasScope(ix, ref, scope);
    }
  }

  /** The refs that expire are those stored before the cutoff, and their paths those of their items. */
  lemma ExpiredPaths(ix: Index, cutoff: int)
    requires Consistent(ix)
    ensures var gone := ExpiredRefs(ix.refs, cutoff); var before := (item: Item) => item.entry.storedAt < cutoff;
            && (forall ref :: ref in gone <==> ref in View(ix) && before(View(ix)[ref]))
            && (forall p :: p in PathsOf(ix.refs, gone) <==> IsPathOf(View(ix), before, p))
  {
  }

  function Elements(paths: seq<string>): set<string> {
    set p | p in paths
  }

  lemma OnePathMore(refs: map<string, Entry>, paths: seq<string>, gone: set<string>, ref: string)
    requires Elements(paths) == PathsOf(refs, gone)
    ensures ref in refs ==> Elements(paths + [refs[ref].path]) == PathsOf(refs, gone + {ref})
    ensures ref !in refs ==> Elements(paths) == PathsOf(refs, gone + {ref})
  {
    if ref in refs {
      var path := refs[ref].path;
      assert forall p :: p in paths + [path] <==> p in paths || p == path;
      assert PathsOf(refs, gone + {ref}) == PathsOf(refs, gone) + {path};
    }
  }

  /** Where a cleanup is while `rest` is still to be looked at: exactly the expired refs looked at
      are gone. */
  ghost predicate Cleaning(was: map<string, Entry>, items: map<string, Item>, cutoff: int, rest: set<string>,
                           now: map<string, Entry>, left: map<string, Item>, paths: seq<string>) {
    var gone := ExpiredRefs(was, cutoff) - rest;
    && rest <= was.Keys && now == was - gone && left == items - gone
    && |paths| == |gone| && Elements(paths) == PathsOf(was, gone)
  }

  lemma CleaningStep(was: map<string, Entry>, items: map<string, Item>, cutoff: int, rest: set<string>,
                     now: map<string, Entry>, left: map<string, Item>, paths: seq<string>, ref: string)
    requires Cleaning(was, items, cutoff, rest, now, left, paths) && ref in rest
    ensures ref in now && now[ref] == was[ref]
    ensures var rest' := rest - {ref};
            if was[ref].storedAt < cutoff
            then Cleaning(was, items, cutoff, rest', now - {ref}, left - {ref}, paths + [was[ref].path])
            else Cleaning(was, items, cutoff, rest', now, left, paths)
  {
    var all := ExpiredRefs(was, cutoff);
    var gone := all - rest;
    if was[ref].storedAt < cutoff {
      assert all - (rest - {ref}) == gone + {ref};
      OnePathMore(was, paths, gone, ref);
      hide PathsOf;
      hide Elements;
      assert was - gone - {ref} == was - (gone + {ref}) && items - gone - {ref} == items - (gone + {ref});
    } else {
      assert all - (rest - {ref}) == gone;
    }
  }

  lemma CleaningEnds(was: map<string, Entry>, items: map<string, Item>, cutoff: int,
                     now: map<string, Entry>, left: map<string, Item>, paths: seq<string>)
    requires Cleaning(was, items, cutoff, {}, now, left, paths)
    ensures var gone := ExpiredRefs(was, cutoff);
            left == items - gone && |paths| == |gone| && Elements(paths) == PathsOf(was, gone)
  {
    assert ExpiredRefs(was, cutoff) - {} == ExpiredRefs(was, cutoff);
  }

  lemma CleaningStarts(was: map<string, Entry>, items: map<string, Item>, cutoff: int)
    ensures Cleaning(was, items, cutoff, was.Keys, was, items, [])
  {
    assert ExpiredRefs(was, cutoff) - was.Keys == {};
  }

  class FileMediaStore {
    var refs: map<string, Entry>
    var scopeToRefs: map<string, set<string>>
    var refToScope: map<string, string>
    var files: set<string>       // the paths that exist on disk
    const maxAge: int

    ghost function Maps(): Index
      reads this
    {
      Index(refs, scopeToRefs, refToScope)
    }

    ghost predicate Valid()
      reads this
    {
      Consistent(Maps())
    }

    ghost function Items(): map<string, Item>
      reads this
      requires Valid()
    {
      View(Maps())
    }

    constructor (maxAge: int, files: set<string>)
      ensures Valid() && Items() == map[] && this.maxAge == maxAge && this.files == files
    {
      refs, scopeToRefs, refToScope := map[], map[], map[];
      this.maxAge, this.files := maxAge, files;
    }

    /** Registers an existing file under a ref never used before. */
    method Store(localPath: string, meta: string, scope: string, ref: string, now: int) returns (r: Option<string>)
      requires Valid() && ref !in refs
      modifies this
      ensures Valid() && files == old(files)
      ensures r == if localPath in files then Some(ref) else None
      ensures Items()
              == if localPath in files then old(Items())[ref := Item(Entry(localPath, meta, now), scope)]
                 else old(Items())
    {
      if localPath !in files {
        return None;
      }
      StoreKeeps(Maps(), ref, Entry(localPath, meta, now), scope);
      hide Consistent;
      hide View;
      refs := refs[ref := Entry(localPath, meta, now)];
      if scope !in scopeToRefs {
        scopeToRefs := scopeToRefs[scope := {}];
      }
      scopeToRefs := scopeToRefs[scope := scopeToRefs[scope] + {ref}];
      refToScope := refToScope[ref := scope];
      assert Maps() == Stored(old(Maps()), ref, Entry(localPath, meta, now), scope);
      return Some(ref);
    }

    method ResolveWithMeta(ref: string) returns (r: Option<(string, string)>)
      requires Valid()
      ensures r == if ref in Items() then Some((Items()[ref].entry.path, Items()[ref].entry.meta)) else None
    {
      if ref !in refs {
        return None;
      }
      return Some((refs[ref].path, refs[ref].meta));
    }

    /** Deletes files, but for those whose deletion fails. */
    method RemoveFiles(paths: seq<string>, fails: set<string>)
      modifies this`files
      ensures files == old(files) - (Elements(paths) - fails)
    {
      for i := 0 to |paths|
        invariant files == old(files) - (Elements(paths[..i]) - fails)
      {
        assert paths[..i + 1] == paths[..i] + [paths[i]];
        if paths[i] !in fails {
          files := files - {paths[i]};
        }
      }
      assert paths[..|paths|] == paths;
    }

    /** Removes a scope from the maps: the phase under the lock. */
    method TakeScope(scope: string) returns (paths: seq<string>)
      requires Valid() && scope in scopeToRefs
      modifies this`refs, this`scopeToRefs, this`refToScope
      ensures Maps() == Released(old(Maps()), scope)
      ensures Elements(paths) == PathsOf(old(refs), old(scopeToRefs[scope]))
    {
      paths := [];
      var members := scopeToRefs[scope];
      ghost var gone: set<string> := {};
      var rest := members;
      while rest != {}
        invariant rest !! gone && rest + gone == members && scopeToRefs == old(scopeToRefs)
        invariant refs == old(refs) - gone && refToScope == old(refToScope) - gone
        invariant Elements(paths) == PathsOf(old(refs), gone)
        decreases |rest|
      {
        var ref :| ref in rest;
        OnePathMore(old(refs), paths, gone, ref);
        if ref in refs {
          paths := paths + [refs[ref].path];
        }
        refs := refs - {ref};
        refToScope := refToScope - {ref};
        gone := gone + {ref};
        rest := rest - {ref};
      }
      scopeToRefs := scopeToRefs - {scope};
      assert gone == members;
    }

    /** Removes exactly one scope: every other ref resolves as before, and of the files exactly
        those of the released refs are deleted, but for failing deletions. */
    method ReleaseAll(scope: string, fails: set<string>)
      requires Valid()
      modifies this
      ensures Valid()
      ensures Items() == map ref | ref in old(Items()) && old(Items())[ref].scope != scope :: old(Items())[ref]
      ensures forall p :: p in files <==>
                p in old(files) && (p in fails || !IsPathOf(old(Items()), (item: Item) => item.scope == scope, p))
    {
      ReleaseKeeps(Maps(), scope);
      ReleasedPaths(Maps(), scope);
      if scope !in scopeToRefs {
        return;
      }
      hide Consistent;
      hide Released;
      hide View;
      var paths := TakeScope(scope);
      RemoveFiles(paths, fails);
    }

    /** Removes one ref from all three maps. */
    method DropRef(ref: string)
      requires Valid() && ref in refs
      modifies this`refs, this`scopeToRefs, this`refToScope
      ensures Valid() && refs == old(refs) - {ref} && Items() == old(Items()) - {ref}
    {
      DropKeeps(Maps(), ref);
      if ref in refToScope {
        var scope := refToScope[ref];
        if scope in scopeToRefs {
          scopeToRefs := scopeToRefs[scope := scopeToRefs[scope] - {ref}];
          if scopeToRefs[scope] == {} {
            scopeToRefs := scopeToRefs - {scope};
          }
        }
      }
      refs := refs - {ref};
      refToScope := refToScope - {ref};
      hide Consistent;
      hide View;
      assert Maps() == Dropped(old(Maps()), ref);
    }

    /** Removes exactly the entries stored before the cutoff, in whatever order they come: the
        phase under the lock. */
    method TakeExpired(cutoff: int) returns (paths: seq<string>)
      requires Valid()
      modifies this`refs, this`scopeToRefs, this`refToScope
      ensures Valid() && Items() == old(Items()) - ExpiredRefs(old(refs), cutoff)
      ensures |paths| == |ExpiredRefs(old(refs), cutoff)|
      ensures Elements(paths) == PathsOf(old(refs), ExpiredRefs(old(refs), cutoff))
    {
      CleaningStarts(refs, Items(), cutoff);
      hide Consistent;
      hide View;
      hide Cleaning;
      paths := [];
      var rest := refs.Keys;
      while rest != {}
        invariant Valid() && Cleaning(old(refs), old(Items()), cutoff, rest, refs, Items(), paths)
        decreases |rest|
      {
        var ref :| ref in rest;
        CleaningStep(old(refs), old(Items()), cutoff, rest, refs, Items(), paths, ref);
        var entry := refs[ref];
        if entry.storedAt < cutoff {
          paths := paths + [entry.path];
          DropRef(ref);
        }
        rest := rest - {ref};
      }
      CleaningEnds(old(refs), old(Items()), cutoff, refs, Items(), paths);
    }

    /** With a positive age, removes exactly the entries older than it and returns their number. */
    method CleanExpired(now: int, fails: set<string>) returns (count: nat)
      requires Valid()
      modifies this
      ensures Valid()
      ensures maxAge <= 0 ==> count == 0 && Items() == old(Items()) && files == old(files)
      ensures maxAge > 0 ==>
                var gone := ExpiredRefs(old(refs), now - maxAge);
                count == |gone| && Items() == old(Items()) - gone
      ensures maxAge > 0 ==>
                var tooOld := (item: Item) => item.entry.storedAt < now - maxAge;
                && (forall ref :: ref in Items() <==> ref in old(Items()) && !tooOld(old(Items())[ref]))
                && (forall p :: p in files <==> p in old(files) && (p in fails || !IsPathOf(old(Items()), tooOld, p)))
    {
      if maxAge <= 0 {
        return 0;
      }
      hide Consistent;
      hide View;
      ExpiredPaths(Maps(), now - maxAge);
      var paths := TakeExpired(now - maxAge);
      RemoveFiles(paths, fails);
      return |paths|;
    }
  }
}
