/**
  `organize_cards(cards_dir)`: the images in the root of the cards folder are grouped
  by the class `extract_class_from_filename` gives their stem, a folder is made for
  each class, and each image is moved into its class folder unless a file of that
  name is already there.

  The cards folder is a map from root entry name to node; a sub-folder is the set of
  names it holds. `iterdir`'s order is a parameter, and so is which moves fail (a
  failed `shutil.move` is reported and skipped).
*/
module Organizer {
  import opened Wrappers
  import opened PyStrings
  import opened ClassPatterns

  datatype Node = File | Folder(names: set<string>)

  /** `f.suffix.lower() in {'.webp', '.jpg', '.jpeg', '.png'}`. */
  predicate HasImageSuffix(name: string) {
    var s := Lower(PathSuffix(name));
    s == ".webp" || s == ".jpg" || s == ".jpeg" || s == ".png"
  }

  predicate IsRootImage(entries: map<string, Node>, name: string) {
    name in entries && entries[name].File? && HasImageSuffix(name)
  }

  /** `order` is an `iterdir` listing of the root: each entry once. */
  predicate IsListing(order: seq<string>, entries: map<string, Node>) {
    && (forall i, j :: 0 <= i < j < |order| ==> order[i] != order[j])
    && (forall x :: x in order ==> x in entries)
    && (forall x :: x in entries ==> x in order)
  }

  /** The root images, in listing order. */
  function RootImages(entries: map<string, Node>, order: seq<string>): (images: seq<string>)
    ensures |images| <= |order|
  {
    if |order| == 0 then []
    else
      var f := order[|order| - 1];
      RootImages(entries, order[..|order| - 1]) + (if IsRootImage(entries, f) then [f] else [])
  }

  lemma RootImagesStep(entries: map<string, Node>, order: seq<string>, i: nat)
    requires i < |order|
    ensures RootImages(entries, order[..i + 1])
         == RootImages(entries, order[..i]) + (if IsRootImage(entries, order[i]) then [order[i]] else [])
  {
    PrefixOfPrefix(order, i);
  }

  lemma PrefixOfPrefix<T>(s: seq<T>, i: nat)
    requires i < |s|
    ensures s[..i + 1][..i] == s[..i] && s[..i + 1][i] == s[i]
  {
  }

  lemma TakeAll<T>(s: seq<T>)
    ensures s[..|s|] == s
  {
  }

  /** Only root images of the listing are found. */
  lemma {:induction false} RootImagesSound(entries: map<string, Node>, order: seq<string>, f: string)
    requires f in RootImages(entries, order)
    ensures f in order && IsRootImage(entries, f)
  {
    var init, last := order[..|order| - 1], order[|order| - 1];
    if f in RootImages(entries, init) {
      RootImagesSound(entries, init, f);
      var i :| 0 <= i < |init| && init[i] == f;
      assert order[i] == f;
    } else {
      assert f == last;
    }
  }

  /** Every root image of the listing is found. */
  lemma {:induction false} RootImagesComplete(entries: map<string, Node>, order: seq<string>, f: string)
    requires f in order && IsRootImage(entries, f)
    ensures f in RootImages(entries, order)
  {
    if order[|order| - 1] != f {
      assert f in order[..|order| - 1] by {
        var i :| 0 <= i < |order| && order[i] == f;
        assert order[..|order| - 1][i] == f;
      }
      RootImagesComplete(entries, order[..|order| - 1], f);
    }
  }

  /** The class of an image: the class of its stem. */
  function ClassOf(name: string): (c: string)
    ensures |c| > 0
  {
    ExtractClass(PathStem(name))
  }

  // ---------------------------------------------------------------------------
  // Grouping: the `class_groups` dictionary, in insertion order
  // ---------------------------------------------------------------------------

  datatype Group = Group(className: string, files: seq<string>)

  /** `class_groups.setdefault(c, []).append(f)`: a new class goes last. */
  function AddToGroups(gs: seq<Group>, c: string, f: string): (r: seq<Group>)
    ensures |r| == |gs| || |r| == |gs| + 1
  {
    if |gs| == 0 then [Group(c, [f])]
    else if gs[0].className == c then [Group(c, gs[0].files + [f])] + gs[1..]
    else [gs[0]] + AddToGroups(gs[1..], c, f)
  }

  function GroupByClass(images: seq<string>): seq<Group> {
    if |images| == 0 then []
    else
      var f := images[|images| - 1];
      AddToGroups(GroupByClass(images[..|images| - 1]), ClassOf(f), f)
  }

  function Flatten(gs: seq<Group>): seq<string> {
    if |gs| == 0 then [] else gs[0].files + Flatten(gs[1..])
  }

  predicate Distinct(s: seq<string>) {
    forall i, j :: 0 <= i < j < |s| ==> s[i] != s[j]
  }

  /** No class has two groups. */
  predicate DistinctClasses(gs: seq<Group>) {
    Distinct(ClassNames(gs))
  }

  lemma DistinctSnoc(s: seq<string>, x: string)
    requires Distinct(s) && x !in s
    ensures Distinct(s + [x])
  {
    assert forall i :: 0 <= i < |s| ==> (s + [x])[i] == s[i];
  }

  /** Every file sits in the group of its own class, and no group is empty. */
  predicate Consistent(gs: seq<Group>) {
    ConsistentWith(gs, ClassOf)
  }

  /** The same for any classifier `cls` in place of the class of a file name. */
  predicate ConsistentWith(gs: seq<Group>, cls: string -> string) {
    forall i :: 0 <= i < |gs| ==> |gs[i].files| > 0 && forall f :: f in gs[i].files ==> cls(f) == gs[i].className
  }

  lemma {:induction false} AddToGroupsFlatten(gs: seq<Group>, c: string, f: string)
    ensures multiset(Flatten(AddToGroups(gs, c, f))) == multiset(Flatten(gs)) + multiset{f}
  {
    if |gs| > 0 {
      var r := AddToGroups(gs, c, f);
      if gs[0].className == c {
        assert r[1..] == gs[1..];
      } else {
        assert r[1..] == AddToGroups(gs[1..], c, f);
        AddToGroupsFlatten(gs[1..], c, f);
      }
    }
  }

  function ClassNames(gs: seq<Group>): (names: seq<string>)
    ensures |names| == |gs|
    ensures forall i :: 0 <= i < |gs| ==> names[i] == gs[i].className
  {
    if |gs| == 0 then [] else [gs[0].className] + ClassNames(gs[1..])
  }

  /** Adding a file adds its class to the keys when it is new, and keeps the keys otherwise. */
  lemma {:induction false} AddToGroupsNames(gs: seq<Group>, c: string, f: string)
    ensures ClassNames(AddToGroups(gs, c, f)) == if c in ClassNames(gs) then ClassNames(gs) else ClassNames(gs) + [c]
  {
    if |gs| > 0 {
      var r := AddToGroups(gs, c, f);
      var n0, rest := gs[0].className, ClassNames(gs[1..]);
      ClassNamesCons(gs[0], gs[1..]);
      assert [gs[0]] + gs[1..] == gs;
      if n0 != c {
        assert r == [gs[0]] + AddToGroups(gs[1..], c, f);
        ClassNamesCons(gs[0], AddToGroups(gs[1..], c, f));
        AddToGroupsNames(gs[1..], c, f);
        NewNameAfterHead(n0, rest, c);
      } else {
        assert r == [Group(c, gs[0].files + [f])] + gs[1..];
        ClassNamesCons(Group(c, gs[0].files + [f]), gs[1..]);
      }
    }
  }

  lemma ClassNamesCons(g: Group, gs: seq<Group>)
    ensures ClassNames([g] + gs) == [g.className] + ClassNames(gs)
  {
    assert ([g] + gs)[1..] == gs;
  }

  /** Adding a name behind a different head name. */
  lemma NewNameAfterHead(n0: string, rest: seq<string>, c: string)
    requires n0 != c
    ensures [n0] + (if c in rest then rest else rest + [c]) ==
      if c in [n0] + rest then [n0] + rest else [n0] + rest + [c]
  {
    assert c in [n0] + rest <==> c in rest;
    assert [n0] + (rest + [c]) == [n0] + rest + [c];
  }

  lemma AddToGroupsConsistent(gs: seq<Group>, f: string)
    requires Consistent(gs)
    ensures Consistent(AddToGroups(gs, ClassOf(f), f))
  {
    AddToGroupsConsistentWith(gs, ClassOf, f);
  }

  lemma {:induction false} AddToGroupsConsistentWith(gs: seq<Group>, cls: string -> string, f: string)
    requires ConsistentWith(gs, cls)
    ensures ConsistentWith(AddToGroups(gs, cls(f), f), cls)
  {
    var c := cls(f);
    if |gs| > 0 {
      var r := AddToGroups(gs, c, f);
      var tail := gs[1..];
      assert ConsistentWith(tail, cls) by {
        assert forall i :: 0 <= i < |tail| ==> tail[i] == gs[i + 1];
      }
      if gs[0].className != c {
        AddToGroupsConsistentWith(tail, cls, f);
        assert r[1..] == AddToGroups(tail, c, f);
        assert forall i :: 0 < i < |r| ==> r[i] == r[1..][i - 1];
      } else {
        assert forall i :: 0 < i < |r| ==> r[i] == tail[i - 1];
      }
    }
  }

  lemma AddToGroupsKeeps(gs: seq<Group>, f: string)
    requires DistinctClasses(gs) && Consistent(gs)
    ensures DistinctClasses(AddToGroups(gs, ClassOf(f), f)) && Consistent(AddToGroups(gs, ClassOf(f), f))
  {
    AddToGroupsConsistent(gs, f);
    AddToGroupsNames(gs, ClassOf(f), f);
    if ClassOf(f) !in ClassNames(gs) {
      DistinctSnoc(ClassNames(gs), ClassOf(f));
    }
  }

  /**
    The groups partition the images: the flattened groups are the images, each file
    sits in the group of its class, classes are distinct, and no group is empty.
  */
  lemma GroupByClassPartition(images: seq<string>)
    ensures var gs := GroupByClass(images);
      && multiset(Flatten(gs)) == multiset(images)
      && DistinctClasses(gs) && Consistent(gs)
  {
    GroupByClassFlatten(images);
    GroupByClassWellFormed(images);
  }

  lemma LastSplit<T>(s: seq<T>)
    requires |s| > 0
    ensures s == s[..|s| - 1] + [s[|s| - 1]]
  {
  }

  lemma {:induction false} GroupByClassFlatten(images: seq<string>)
    ensures multiset(Flatten(GroupByClass(images))) == multiset(images)
  {
    if |images| > 0 {
      var init := images[..|images| - 1];
      var f := images[|images| - 1];
      var c := ClassOf(f);
      var g := GroupByClass(init);
      assert GroupByClass(images) == AddToGroups(g, c, f);
      GroupByClassFlatten(init);
      AddToGroupsFlatten(g, c, f);
      LastSplit(images);
      calc {
        multiset(Flatten(GroupByClass(images)));
        multiset(Flatten(AddToGroups(g, c, f)));
        multiset(Flatten(g)) + multiset{f};
        multiset(init) + multiset{f};
        multiset(init + [f]);
      }
    }
  }

  lemma {:induction false} GroupByClassWellFormed(images: seq<string>)
    ensures DistinctClasses(GroupByClass(images)) && Consistent(GroupByClass(images))
  {
    if |images| > 0 {
      var init := images[..|images| - 1];
      GroupByClassWellFormed(init);
      AddToGroupsKeeps(GroupByClass(init), images[|images| - 1]);
    }
  }

  /** Each image lies in exactly one group, the one of its class. */
  lemma GroupOfImage(images: seq<string>, f: string, i: nat)
    requires f in images
    requires i < |GroupByClass(images)| && f in GroupByClass(images)[i].files
    ensures GroupByClass(images)[i].className == ClassOf(f)
    ensures forall j :: 0 <= j < |GroupByClass(images)| && f in GroupByClass(images)[j].files ==> j == i
  {
    GroupByClassPartition(images);
  }

  function SumSizes(gs: seq<Group>): nat {
    if |gs| == 0 then 0 else |gs[0].files| + SumSizes(gs[1..])
  }

  lemma {:induction false} SumSizesFlatten(gs: seq<Group>)
    ensures SumSizes(gs) == |Flatten(gs)|
  {
    if |gs| > 0 {
      SumSizesFlatten(gs[1..]);
    }
  }

  /** The group sizes sum to the number of root images. */
  lemma GroupSizesSum(images: seq<string>)
    ensures SumSizes(GroupByClass(images)) == |images|
  {
    GroupByClassPartition(images);
    SumSizesFlatten(GroupByClass(images));
    assert |multiset(Flatten(GroupByClass(images)))| == |multiset(images)|;
  }

  // ---------------------------------------------------------------------------
  // Moving
  // ---------------------------------------------------------------------------

  /**
    `class_dir.mkdir(exist_ok=True)`: an existing folder is kept, a missing one is
    made; an existing file of that name raises.
  */
  function MakeClassDir(entries: map<string, Node>, c: string): (r: Option<map<string, Node>>)
    ensures r.Some? <==> c !in entries || entries[c].Folder?
    ensures r.Some? ==> c in r.value && r.value[c].Folder?
    ensures r.Some? ==> forall x :: x != c ==> (x in r.value <==> x in entries) && (x in entries ==> r.value[x] == entries[x])
  {
    if c !in entries then Some(entries[c := Folder({})])
    else if entries[c].Folder? then Some(entries)
    else None
  }

  /**
    Whether `f` moves into folder `c`: the target name is free in the folder, `f` is
    in the root and is not the folder itself, and the move does not raise.
  */
  predicate Movable(entries: map<string, Node>, c: string, f: string, moveFails: string -> bool) {
    c in entries && entries[c].Folder? && f !in entries[c].names && f in entries && f != c && !moveFails(f)
  }

  /**
    One image into its class folder: skipped when the target name is already there,
    reported when the move raises (the source is missing, is the folder itself, or the
    move fails), otherwise the root entry goes into the folder.
  */
  function MoveFile(entries: map<string, Node>, c: string, f: string, moveFails: string -> bool): (r: (map<string, Node>, bool))
    requires c in entries && entries[c].Folder?
    ensures c in r.0 && r.0[c].Folder? && entries[c].names <= r.0[c].names
    ensures f in entries[c].names ==> r == (entries, false)
    ensures r.1 <==> Movable(entries, c, f, moveFails)
    ensures r.1 ==> f !in r.0 && f in r.0[c].names
    ensures forall x :: x != c && x != f ==> (x in r.0 <==> x in entries) && (x in entries ==> r.0[x] == entries[x])
  {
    if f in entries[c].names then (entries, false)
    else if f !in entries || f == c || moveFails(f) then (entries, false)
    else ((entries - {f})[c := Folder(entries[c].names + {f})], true)
  }

  /** The files of a group that move when each is taken on its own against `entries`. */
  function MovedSet(entries: map<string, Node>, c: string, files: seq<string>, moveFails: string -> bool): set<string> {
    set f | f in files && Movable(entries, c, f, moveFails)
  }

  /** The root with `moved` taken out of it and put into folder `c`. */
  function Placed(entries: map<string, Node>, c: string, moved: set<string>): map<string, Node>
    requires c in entries && entries[c].Folder?
  {
    (entries - moved)[c := Folder(entries[c].names + moved)]
  }

  /**
    The inner loop over one group's files. Each file's fate depends only on the
    entries before the loop: the files that move are exactly those movable then, each
    counted once, and they leave the root for the folder; nothing else changes.
  */
  function MoveFiles(entries: map<string, Node>, c: string, files: seq<string>, moveFails: string -> bool): (r: (map<string, Node>, nat))
    requires c in entries && entries[c].Folder?
    ensures r == (Placed(entries, c, MovedSet(entries, c, files, moveFails)), |MovedSet(entries, c, files, moveFails)|)
    ensures c in r.0 && r.0[c].Folder? && entries[c].names <= r.0[c].names
    ensures r.1 <= |files|
  {
    if |files| == 0 then
      PlacedNone(entries, c);
      (entries, 0)
    else
      var prev := MoveFiles(entries, c, files[..|files| - 1], moveFails);
      var step := MoveFile(prev.0, c, files[|files| - 1], moveFails);
      MoveFileAfterPlaced(entries, c, files, moveFails);
      (step.0, prev.1 + if step.1 then 1 else 0)
  }

  /**
    The last file of `files`: it moves iff it is movable against the entries before
    the loop and was not moved already, which keeps the closed form of the loop.
  */
  lemma MoveFileAfterPlaced(entries: map<string, Node>, c: string, files: seq<string>, moveFails: string -> bool)
    requires c in entries && entries[c].Folder? && |files| > 0
    ensures var f := files[|files| - 1];
      var m := MovedSet(entries, c, files[..|files| - 1], moveFails);
      var m' := MovedSet(entries, c, files, moveFails);
      var step := MoveFile(Placed(entries, c, m), c, f, moveFails);
      && step == (Placed(entries, c, m'), f !in m && Movable(entries, c, f, moveFails))
      && |m'| == |m| + if step.1 then 1 else 0
  {
    var done, f := files[..|files| - 1], files[|files| - 1];
    var m := MovedSet(entries, c, done, moveFails);
    var m' := MovedSet(entries, c, files, moveFails);
    assert files == done + [f];
    assert m' == m + if Movable(entries, c, f, moveFails) then {f} else {} by {
      forall x ensures x in m' <==> x in m || (x == f && Movable(entries, c, f, moveFails)) {
        assert x in done + [f] <==> x in done || x == f;
      }
    }
    var prev := Placed(entries, c, m);
    if f in prev[c].names {
      assert m' == m;
    } else if Movable(entries, c, f, moveFails) {
      PlacedOneMore(entries, c, m, f);
    } else {
      assert m' == m;
    }
  }

  lemma PlacedNone(entries: map<string, Node>, c: string)
    requires c in entries && entries[c].Folder?
    ensures Placed(entries, c, {}) == entries
  {
    var p := Placed(entries, c, {});
    assert p.Keys == entries.Keys;
    assert entries[c].names + {} == entries[c].names;
    assert forall x :: x in p ==> p[x] == entries[x];
  }

  lemma PlacedOneMore(entries: map<string, Node>, c: string, m: set<string>, f: string)
    requires c in entries && entries[c].Folder?
    requires f in entries && f != c && f !in m
    ensures var prev := Placed(entries, c, m);
      (prev - {f})[c := Folder(prev[c].names + {f})] == Placed(entries, c, m + {f})
  {
    var prev := Placed(entries, c, m);
    var lhs, rhs := (prev - {f})[c := Folder(prev[c].names + {f})], Placed(entries, c, m + {f});
    assert prev[c].names + {f} == entries[c].names + (m + {f});
    assert lhs.Keys == rhs.Keys;
    assert forall x :: x in lhs ==> lhs[x] == rhs[x];
  }

  /** Where the move phase stops: the folder, the moves counted, and the class whose `mkdir` raised. */
  datatype Progress = Progress(entries: map<string, Node>, moved: nat, crash: Option<string>)

  /** The outer loop over the groups; a raising `mkdir` ends it. */
  function MoveGroups(entries: map<string, Node>, gs: seq<Group>, moveFails: string -> bool): (p: Progress)
    ensures p.moved <= SumSizes(gs)
  {
    if |gs| == 0 then Progress(entries, 0, None)
    else
      var prev := MoveGroups(entries, gs[..|gs| - 1], moveFails);
      var g := gs[|gs| - 1];
      SumSizesSnoc(gs);
      if prev.crash.Some? then prev
      else match MakeClassDir(prev.entries, g.className)
        case None => Progress(prev.entries, prev.moved, Some(g.className))
        case Some(made) =>
          var r := MoveFiles(made, g.className, g.files, moveFails);
          Progress(r.0, prev.moved + r.1, None)
  }

  lemma {:induction false} SumSizesSnoc(gs: seq<Group>)
    requires |gs| > 0
    ensures SumSizes(gs) == SumSizes(gs[..|gs| - 1]) + |gs[|gs| - 1].files|
  {
    if |gs| > 1 {
      assert gs[1..][..|gs[1..]| - 1] == gs[..|gs| - 1][1..];
      SumSizesSnoc(gs[1..]);
    }
  }

  /** The first raising `mkdir` ends the move phase: later groups change nothing. */
  lemma {:induction false} MoveGroupsCrashStays(entries: map<string, Node>, gs: seq<Group>, k: nat, moveFails: string -> bool)
    requires k <= |gs|
    requires MoveGroups(entries, gs[..k], moveFails).crash.Some?
    ensures MoveGroups(entries, gs, moveFails) == MoveGroups(entries, gs[..k], moveFails)
  {
    if k < |gs| {
      var init := gs[..|gs| - 1];
      assert init[..k] == gs[..k];
      MoveGroupsCrashStays(entries, init, k, moveFails);
    } else {
      assert gs[..k] == gs;
    }
  }

  /** Where the loop over the groups stands after `i` of them. */
  lemma MoveGroupsStep(entries: map<string, Node>, gs: seq<Group>, i: nat, moveFails: string -> bool)
    requires i < |gs|
    ensures var prev := MoveGroups(entries, gs[..i], moveFails);
      MoveGroups(entries, gs[..i + 1], moveFails) ==
        if prev.crash.Some? then prev
        else match MakeClassDir(prev.entries, gs[i].className)
          case None => Progress(prev.entries, prev.moved, Some(gs[i].className))
          case Some(made) =>
            var r := MoveFiles(made, gs[i].className, gs[i].files, moveFails);
            Progress(r.0, prev.moved + r.1, None)
  {
    assert gs[..i + 1][..i] == gs[..i];
  }

  /**
    Nothing else changes: a root name that is neither an image of a group nor a class
    name keeps its entry, and every root entry that disappears was an image of a group.
  */
  lemma {:induction false} MoveGroupsFrame(entries: map<string, Node>, gs: seq<Group>, moveFails: string -> bool, x: string)
    ensures var p := MoveGroups(entries, gs, moveFails);
      && (x !in Flatten(gs) && x !in ClassNames(gs) ==> (x in p.entries <==> x in entries) && (x in entries ==> p.entries[x] == entries[x]))
      && (x in entries && x !in p.entries ==> x in Flatten(gs))
  {
    if |gs| > 0 {
      var init := gs[..|gs| - 1];
      var g := gs[|gs| - 1];
      MoveGroupsFrame(entries, init, moveFails, x);
      FlattenSnoc(gs);
      var prev := MoveGroups(entries, init, moveFails);
    }
  }

  lemma FlattenSnoc(gs: seq<Group>)
    requires |gs| > 0
    ensures forall x :: x in Flatten(gs) <==> x in Flatten(gs[..|gs| - 1]) || x in gs[|gs| - 1].files
    ensures forall x :: x in ClassNames(gs) <==> x in ClassNames(gs[..|gs| - 1]) || x == gs[|gs| - 1].className
  {
    FlattenSnocFiles(gs);
    ClassNamesSnoc(gs);
  }

  lemma FlattenSnocFiles(gs: seq<Group>)
    requires |gs| > 0
    ensures Flatten(gs) == Flatten(gs[..|gs| - 1]) + gs[|gs| - 1].files
  {
    FlattenAppend(gs[..|gs| - 1], [gs[|gs| - 1]]);
    assert Flatten([gs[|gs| - 1]]) == gs[|gs| - 1].files;
    assert gs[..|gs| - 1] + [gs[|gs| - 1]] == gs;
  }

  lemma ClassNamesSnoc(gs: seq<Group>)
    requires |gs| > 0
    ensures ClassNames(gs) == ClassNames(gs[..|gs| - 1]) + [gs[|gs| - 1].className]
  {
    var a, b := ClassNames(gs), ClassNames(gs[..|gs| - 1]) + [gs[|gs| - 1].className];
    assert |a| == |b|;
    forall i | 0 <= i < |a| ensures a[i] == b[i] {
      if i < |gs| - 1 {
        assert gs[..|gs| - 1][i] == gs[i];
      }
    }
  }

  lemma AppendAssoc<T>(a: seq<T>, b: seq<T>, c: seq<T>)
    ensures a + (b + c) == (a + b) + c
  {
  }

  lemma {:induction false} FlattenAppend(a: seq<Group>, b: seq<Group>)
    ensures Flatten(a + b) == Flatten(a) + Flatten(b)
  {
    if |a| > 0 {
      assert (a + b)[0] == a[0] && (a + b)[1..] == a[1..] + b;
      FlattenAppend(a[1..], b);
      AppendAssoc(a[0].files, Flatten(a[1..]), Flatten(b));
    } else {
      assert a + b == b;
    }
  }

  // ---------------------------------------------------------------------------
  // Where each image ends up
  // ---------------------------------------------------------------------------

  /** `target_path.exists()` before the run: the image's class folder already holds its name. */
  predicate TargetExisted(cls: string -> string, entries: map<string, Node>, f: string) {
    cls(f) in entries && entries[cls(f)].Folder? && f in entries[cls(f)].names
  }

  /** An image that a successful run moves: its target is free and its move does not raise. */
  predicate MovedImage(cls: string -> string, entries: map<string, Node>, f: string, moveFails: string -> bool) {
    !TargetExisted(cls, entries, f) && !moveFails(f)
  }

  function MovedImages(cls: string -> string, entries: map<string, Node>, files: seq<string>, moveFails: string -> bool): set<string> {
    set f | f in files && MovedImage(cls, entries, f, moveFails)
  }

  /**
    The fate of image `f` once its group is done: its class folder exists, `f` is
    still a root file iff it did not move, and the folder holds its name iff the
    target was there already or the move went through.
  */
  predicate Settled(cls: string -> string, before: map<string, Node>, after: map<string, Node>, f: string, moveFails: string -> bool) {
    && cls(f) in after && after[cls(f)].Folder?
    && (f in after && after[f] == File <==> !MovedImage(cls, before, f, moveFails))
    && (f in after[cls(f)].names <==> TargetExisted(cls, before, f) || !moveFails(f))
  }

  /** Name `c` has not been touched: any entry it has is the old one, and an old folder is still there. */
  predicate Untouched(before: map<string, Node>, after: map<string, Node>, c: string) {
    && (c in after ==> c in before && after[c] == before[c])
    && (c in before && before[c].Folder? ==> c in after)
  }

  /** Groups of root files, one group per class, each file in the group of its class. */
  predicate RootFileGroups(cls: string -> string, entries: map<string, Node>, gs: seq<Group>) {
    && DistinctClasses(gs) && ConsistentWith(gs, cls)
    && forall i, f :: 0 <= i < |gs| && f in gs[i].files ==> f in entries && entries[f] == File
  }

  /** Every file of the first `k` groups is settled. */
  predicate SettledBefore(cls: string -> string, before: map<string, Node>, after: map<string, Node>, gs: seq<Group>, k: nat, moveFails: string -> bool) {
    forall i, f :: 0 <= i < |gs| && i < k && f in gs[i].files ==> Settled(cls, before, after, f, moveFails)
  }

  /** The groups from `k` on are still as they were: their classes untouched, their files in the root. */
  predicate PendingFrom(before: map<string, Node>, after: map<string, Node>, gs: seq<Group>, k: nat) {
    forall i :: k <= i < |gs| ==>
      && Untouched(before, after, gs[i].className)
      && forall f :: f in gs[i].files ==> f in after && after[f] == File
  }

  lemma ClassesDiffer(gs: seq<Group>, i: nat, j: nat)
    requires DistinctClasses(gs) && i < |gs| && j < |gs| && i != j
    ensures gs[i].className != gs[j].className
  {
    var n := ClassNames(gs);
    assert n[i] == gs[i].className && n[j] == gs[j].className;
  }

  lemma {:induction false} FlattenIndex(gs: seq<Group>, f: string)
    requires f in Flatten(gs)
    ensures exists j :: 0 <= j < |gs| && f in gs[j].files
  {
    if f !in gs[0].files {
      FlattenIndex(gs[1..], f);
      var j :| 0 <= j < |gs[1..]| && f in gs[1..][j].files;
      assert f in gs[j + 1].files;
    }
  }

  /** The files of group `i` once its `mkdir` succeeded on the entries `q`. */
  lemma SettleOwnGroup(cls: string -> string, entries: map<string, Node>, gs: seq<Group>, i: nat, q: map<string, Node>, moveFails: string -> bool)
    requires i < |gs| && RootFileGroups(cls, entries, gs) && PendingFrom(entries, q, gs, i)
    requires MakeClassDir(q, gs[i].className).Some?
    ensures var c := gs[i].className;
      var made := MakeClassDir(q, c).value;
      && MovedSet(made, c, gs[i].files, moveFails) == MovedImages(cls, entries, gs[i].files, moveFails)
      && forall f :: f in gs[i].files ==> Settled(cls, entries, MoveFiles(made, c, gs[i].files, moveFails).0, f, moveFails)
  {
    var c, files := gs[i].className, gs[i].files;
    var made := MakeClassDir(q, c).value;
    assert made[c].names == if c in entries && entries[c].Folder? then entries[c].names else {} by {
      assert Untouched(entries, q, c);
    }
    forall f | f in files
      ensures cls(f) == c && f in made && made[f] == File && f != c
    {
      assert f in q && q[f] == File;
    }
    var m := MovedSet(made, c, files, moveFails);
    assert m == MovedImages(cls, entries, files, moveFails);
    var after := MoveFiles(made, c, files, moveFails).0;
    assert after == Placed(made, c, m);
    forall f | f in files ensures Settled(cls, entries, after, f, moveFails) {
    }
  }

  /** The files of one group, all root files of its class `c`, before the group is moved. */
  predicate GroupFilesIn(cls: string -> string, q: map<string, Node>, entries: map<string, Node>, c: string, files: seq<string>) {
    forall x :: x in files ==> x in q && q[x] == File && x in entries && entries[x] == File && cls(x) == c
  }

  /** A settled file of another class stays settled while group `c` is moved. */
  lemma SettleEarlierFile(cls: string -> string, entries: map<string, Node>, q: map<string, Node>, c: string, files: seq<string>, moveFails: string -> bool, f: string)
    requires MakeClassDir(q, c).Some? && GroupFilesIn(cls, q, entries, c, files)
    requires cls(f) != c && Settled(cls, entries, q, f, moveFails)
    ensures Settled(cls, entries, MoveFiles(MakeClassDir(q, c).value, c, files, moveFails).0, f, moveFails)
  {
    var made := MakeClassDir(q, c).value;
    var m := MovedSet(made, c, files, moveFails);
    var cf := cls(f);
    assert cf !in files by {
      assert q[cf].Folder?;
    }
    assert f !in files;
    if f == c {
      assert c !in q || q[c].Folder?;
    }
  }

  /** A group of another class, still pending, stays pending while group `c` is moved. */
  lemma SettleLaterGroup(cls: string -> string, entries: map<string, Node>, q: map<string, Node>, c: string, files: seq<string>, moveFails: string -> bool, c': string, files': seq<string>)
    requires MakeClassDir(q, c).Some? && GroupFilesIn(cls, q, entries, c, files)
    requires c' != c && Untouched(entries, q, c') && GroupFilesIn(cls, q, entries, c', files')
    ensures var after := MoveFiles(MakeClassDir(q, c).value, c, files, moveFails).0;
      && Untouched(entries, after, c')
      && forall f :: f in files' ==> f in after && after[f] == File
  {
    var made := MakeClassDir(q, c).value;
    var m := MovedSet(made, c, files, moveFails);
    assert c' in m ==> c' in entries && entries[c'] == File;
    forall f | f in files' ensures f != c && f !in files {
      assert c !in q || q[c].Folder?;
    }
  }

  /** Group `i`'s files, all of its class. */
  lemma GroupFilesOf(cls: string -> string, entries: map<string, Node>, gs: seq<Group>, i: nat, q: map<string, Node>)
    requires i < |gs| && RootFileGroups(cls, entries, gs) && PendingFrom(entries, q, gs, i)
    ensures GroupFilesIn(cls, q, entries, gs[i].className, gs[i].files)
  {
    assert forall x :: x in gs[i].files ==> cls(x) == gs[i].className;
  }

  lemma SettleGroupEarlier(cls: string -> string, entries: map<string, Node>, gs: seq<Group>, i: nat, q: map<string, Node>, moveFails: string -> bool)
    requires i < |gs| && RootFileGroups(cls, entries, gs)
    requires SettledBefore(cls, entries, q, gs, i, moveFails) && PendingFrom(entries, q, gs, i)
    requires MakeClassDir(q, gs[i].className).Some?
    ensures var c := gs[i].className;
      var after := MoveFiles(MakeClassDir(q, c).value, c, gs[i].files, moveFails).0;
      forall j, f :: 0 <= j < i && f in gs[j].files ==> Settled(cls, entries, after, f, moveFails)
  {
    var c := gs[i].className;
    GroupFilesOf(cls, entries, gs, i, q);
    forall j, f | 0 <= j < i && f in gs[j].files
      ensures Settled(cls, entries, MoveFiles(MakeClassDir(q, c).value, c, gs[i].files, moveFails).0, f, moveFails)
    {
      ClassesDiffer(gs, i, j);
      SettleEarlierFile(cls, entries, q, c, gs[i].files, moveFails, f);
    }
  }

  lemma SettleGroupLater(cls: string -> string, entries: map<string, Node>, gs: seq<Group>, i: nat, q: map<string, Node>, moveFails: string -> bool)
    requires i < |gs| && RootFileGroups(cls, entries, gs) && PendingFrom(entries, q, gs, i)
    requires MakeClassDir(q, gs[i].className).Some?
    ensures var c := gs[i].className;
      PendingFrom(entries, MoveFiles(MakeClassDir(q, c).value, c, gs[i].files, moveFails).0, gs, i + 1)
  {
    var c := gs[i].className;
    GroupFilesOf(cls, entries, gs, i, q);
    forall j | i + 1 <= j < |gs|
      ensures var after := MoveFiles(MakeClassDir(q, c).value, c, gs[i].files, moveFails).0;
        Untouched(entries, after, gs[j].className) && forall f :: f in gs[j].files ==> f in after && after[f] == File
    {
      ClassesDiffer(gs, i, j);
      GroupFilesOf(cls, entries, gs, j, q);
      SettleLaterGroup(cls, entries, q, c, gs[i].files, moveFails, gs[j].className, gs[j].files);
    }
  }

  /** One group: after its `mkdir` succeeded, its files are settled and the rest keep their state. */
  lemma SettleGroup(cls: string -> string, entries: map<string, Node>, gs: seq<Group>, i: nat, q: map<string, Node>, moveFails: string -> bool)
    requires i < |gs| && RootFileGroups(cls, entries, gs)
    requires SettledBefore(cls, entries, q, gs, i, moveFails) && PendingFrom(entries, q, gs, i)
    requires MakeClassDir(q, gs[i].className).Some?
    ensures var c := gs[i].className;
      var r := MoveFiles(MakeClassDir(q, c).value, c, gs[i].files, moveFails);
      && SettledBefore(cls, entries, r.0, gs, i + 1, moveFails) && PendingFrom(entries, r.0, gs, i + 1)
      && r.1 == |MovedImages(cls, entries, gs[i].files, moveFails)|
  {
    SettleOwnGroup(cls, entries, gs, i, q, moveFails);
    SettleGroupEarlier(cls, entries, gs, i, q, moveFails);
    SettleGroupLater(cls, entries, gs, i, q, moveFails);
  }

  lemma MovedImagesAppend(cls: string -> string, entries: map<string, Node>, a: seq<string>, b: seq<string>, moveFails: string -> bool)
    ensures MovedImages(cls, entries, a + b, moveFails) == MovedImages(cls, entries, a, moveFails) + MovedImages(cls, entries, b, moveFails)
  {
    forall x ensures x in a + b <==> x in a || x in b {
    }
  }

  /**
    After the first `k` groups of a run that has not crashed, each of their files is
    settled, the later groups are untouched, and the count is the number of their
    files that moved.
  */
  lemma {:induction false} MoveGroupsSettles(cls: string -> string, entries: map<string, Node>, gs: seq<Group>, k: nat, moveFails: string -> bool)
    requires k <= |gs| && RootFileGroups(cls, entries, gs)
    requires MoveGroups(entries, gs[..k], moveFails).crash.None?
    ensures var p := MoveGroups(entries, gs[..k], moveFails);
      && SettledBefore(cls, entries, p.entries, gs, k, moveFails)
      && PendingFrom(entries, p.entries, gs, k)
      && p.moved == |MovedImages(cls, entries, Flatten(gs[..k]), moveFails)|
  {
    if k == 0 {
      assert gs[..0] == [];
      assert MovedImages(cls, entries, [], moveFails) == {};
    } else {
      var i := k - 1;
      MoveGroupsStep(entries, gs, i, moveFails);
      var prev := MoveGroups(entries, gs[..i], moveFails);
      MoveGroupsSettles(cls, entries, gs, i, moveFails);
      SettleGroup(cls, entries, gs, i, prev.entries, moveFails);
      MovedImagesSnoc(cls, entries, gs, k, moveFails);
    }
  }

  /** The images moved by the first `k` groups: those of the first `k - 1` and those of group `k - 1`, which are disjoint. */
  lemma MovedImagesSnoc(cls: string -> string, entries: map<string, Node>, gs: seq<Group>, k: nat, moveFails: string -> bool)
    requires 0 < k <= |gs| && RootFileGroups(cls, entries, gs)
    ensures |MovedImages(cls, entries, Flatten(gs[..k]), moveFails)| ==
      |MovedImages(cls, entries, Flatten(gs[..k - 1]), moveFails)| + |MovedImages(cls, entries, gs[k - 1].files, moveFails)|
  {
    var i := k - 1;
    assert gs[..k][..i] == gs[..i] && gs[..k][i] == gs[i];
    FlattenSnocFiles(gs[..k]);
    MovedImagesAppend(cls, entries, Flatten(gs[..i]), gs[i].files, moveFails);
    var earlier, own := MovedImages(cls, entries, Flatten(gs[..i]), moveFails), MovedImages(cls, entries, gs[i].files, moveFails);
    assert earlier * own == {} by {
      forall f | f in Flatten(gs[..i]) ensures f !in gs[i].files {
        FlattenIndex(gs[..i], f);
        var j :| 0 <= j < i && f in gs[..i][j].files;
        ClassesDiffer(gs, i, j);
        assert cls(f) == gs[j].className;
      }
    }
  }

  /** The class whose `mkdir` raised, after `k` groups that went through. */
  predicate CrashesAt(entries: map<string, Node>, gs: seq<Group>, k: nat, moveFails: string -> bool) {
    && k < |gs|
    && MoveGroups(entries, gs[..k], moveFails).crash.None?
    && MakeClassDir(MoveGroups(entries, gs[..k], moveFails).entries, gs[k].className).None?
    && MoveGroups(entries, gs, moveFails) ==
         MoveGroups(entries, gs[..k], moveFails).(crash := Some(gs[k].className))
  }

  /** A crashed run stopped at the first group whose `mkdir` raised. */
  lemma {:induction false} MoveGroupsCrashAt(entries: map<string, Node>, gs: seq<Group>, moveFails: string -> bool)
    requires MoveGroups(entries, gs, moveFails).crash.Some?
    ensures exists k: nat :: CrashesAt(entries, gs, k, moveFails)
  {
    var init := gs[..|gs| - 1];
    if MoveGroups(entries, init, moveFails).crash.Some? {
      MoveGroupsCrashAt(entries, init, moveFails);
      var k: nat :| CrashesAt(entries, init, k, moveFails);
      assert init[..k] == gs[..k];
      assert CrashesAt(entries, gs, k, moveFails);
    } else {
      assert CrashesAt(entries, gs, |gs| - 1, moveFails);
    }
  }

  datatype Outcome =
    | NotFound            // the folder does not exist: False
    | NoImages            // no image in its root: False
    | Crashed(className: string)  // `mkdir` raised for this class
    | Organized(moved: nat)       // True, with `moved_count`

  function OrganizeResult(present: bool, entries: map<string, Node>, order: seq<string>, moveFails: string -> bool): (Outcome, map<string, Node>) {
    if !present then (NotFound, entries)
    else
      var images := RootImages(entries, order);
      if |images| == 0 then (NoImages, entries)
      else
        var p := MoveGroups(entries, GroupByClass(images), moveFails);
        (if p.crash.Some? then Crashed(p.crash.value) else Organized(p.moved), p.entries)
  }

  /** `organize_cards` reports False for a missing folder, and leaves it as it was. */
  lemma OrganizeMissing(entries: map<string, Node>, order: seq<string>, moveFails: string -> bool)
    ensures OrganizeResult(false, entries, order, moveFails) == (NotFound, entries)
  {
  }

  /** It reports False for a root without images exactly, and changes nothing then. */
  lemma OrganizeNoImages(entries: map<string, Node>, order: seq<string>, moveFails: string -> bool)
    requires IsListing(order, entries)
    ensures OrganizeResult(true, entries, order, moveFails).0 == NoImages <==>
      forall x :: x in entries ==> !IsRootImage(entries, x)
    ensures OrganizeResult(true, entries, order, moveFails).0 == NoImages ==>
      OrganizeResult(true, entries, order, moveFails).1 == entries
  {
    var images := RootImages(entries, order);
    if |images| > 0 {
      RootImagesSound(entries, order, images[0]);
    }
    if exists x :: x in entries && IsRootImage(entries, x) {
      var x :| x in entries && IsRootImage(entries, x);
      RootImagesComplete(entries, order, x);
    }
  }

  /** `moved_count` never exceeds the number of root images. */
  lemma MovedAtMostImages(present: bool, entries: map<string, Node>, order: seq<string>, moveFails: string -> bool)
    ensures var (outcome, _) := OrganizeResult(present, entries, order, moveFails);
      outcome.Organized? ==> outcome.moved <= |RootImages(entries, order)|
  {
    GroupSizesSum(RootImages(entries, order));
  }

  /**
    What `organize_cards` leaves alone: a root name that is neither a root image nor
    the class of one keeps its entry, and only root images leave the root.
  */
  lemma OrganizeFrame(present: bool, entries: map<string, Node>, order: seq<string>, moveFails: string -> bool, x: string)
    ensures var after := OrganizeResult(present, entries, order, moveFails).1;
      var images := RootImages(entries, order);
      && ((x !in images && forall f :: f in images ==> ClassOf(f) != x) ==>
            (x in after <==> x in entries) && (x in entries ==> after[x] == entries[x]))
      && (x in entries && x !in after ==> x in images)
  {
    var images := RootImages(entries, order);
    if present && |images| > 0 {
      MoveGroupsFrame(entries, GroupByClass(images), moveFails, x);
      GroupedNames(images, x);
    }
  }

  /** Every root image found is a file of the root. */
  lemma RootImagesAreFiles(entries: map<string, Node>, order: seq<string>)
    ensures forall f :: f in RootImages(entries, order) ==> f in entries && entries[f] == File
  {
    forall f | f in RootImages(entries, order) ensures f in entries && entries[f] == File {
      RootImagesSound(entries, order, f);
    }
  }

  /** The grouped files are the images. */
  lemma GroupedAreImages(images: seq<string>)
    ensures forall x :: x in Flatten(GroupByClass(images)) <==> x in images
  {
    forall x ensures x in Flatten(GroupByClass(images)) <==> x in images {
      GroupedNames(images, x);
    }
  }

  /** Groups, one per class, of files that are all root files. */
  lemma RootFileGroupsOf(cls: string -> string, entries: map<string, Node>, images: seq<string>, gs: seq<Group>)
    requires DistinctClasses(gs) && ConsistentWith(gs, cls)
    requires forall x :: x in Flatten(gs) ==> x in images
    requires forall f :: f in images ==> f in entries && entries[f] == File
    ensures RootFileGroups(cls, entries, gs)
  {
    forall i, f | 0 <= i < |gs| && f in gs[i].files ensures f in entries && entries[f] == File {
      FlattenMember(gs, i, f);
    }
  }

  /** The groups of a listing's root images are groups of root files, one per class, holding exactly the images. */
  lemma GroupsOfRootImages(entries: map<string, Node>, order: seq<string>)
    ensures var images := RootImages(entries, order);
      && RootFileGroups(ClassOf, entries, GroupByClass(images))
      && forall x :: x in Flatten(GroupByClass(images)) <==> x in images
  {
    var images := RootImages(entries, order);
    GroupByClassWellFormed(images);
    RootImagesAreFiles(entries, order);
    GroupedAreImages(images);
    RootFileGroupsOf(ClassOf, entries, images, GroupByClass(images));
  }

  /** A run over groups of root files that did not crash settles every grouped file, and counts those that moved. */
  lemma MoveGroupsAll(cls: string -> string, entries: map<string, Node>, images: seq<string>, gs: seq<Group>, moveFails: string -> bool)
    requires RootFileGroups(cls, entries, gs)
    requires forall x :: x in Flatten(gs) <==> x in images
    requires MoveGroups(entries, gs, moveFails).crash.None?
    ensures var p := MoveGroups(entries, gs, moveFails);
      && (forall f :: f in images ==> Settled(cls, entries, p.entries, f, moveFails))
      && p.moved == |MovedImages(cls, entries, images, moveFails)|
      && p.moved == |set f | f in images && !(f in p.entries && p.entries[f] == File)|
  {
    var p := MoveGroups(entries, gs, moveFails);
    assert gs[..|gs|] == gs;
    MoveGroupsSettles(cls, entries, gs, |gs|, moveFails);
    forall f | f in images ensures Settled(cls, entries, p.entries, f, moveFails) {
      FlattenIndex(gs, f);
    }
    assert MovedImages(cls, entries, Flatten(gs), moveFails) == MovedImages(cls, entries, images, moveFails);
    assert MovedImages(cls, entries, images, moveFails) == set f | f in images && !(f in p.entries && p.entries[f] == File);
  }

  /** A crashed run: group `k` could not get its folder, the groups before it are settled, it and the later ones are untouched. */
  predicate CrashedAfter(cls: string -> string, before: map<string, Node>, after: map<string, Node>, gs: seq<Group>, k: nat, c: string, moveFails: string -> bool) {
    && k < |gs| && gs[k].className == c
    && c in after && after[c] == File
    && SettledBefore(cls, before, after, gs, k, moveFails)
    && PendingFrom(before, after, gs, k)
  }

  /** A crashed run over groups of root files stopped at a class held by a root file, with everything before settled. */
  lemma MoveGroupsCrashed(cls: string -> string, entries: map<string, Node>, gs: seq<Group>, moveFails: string -> bool)
    requires RootFileGroups(cls, entries, gs)
    requires MoveGroups(entries, gs, moveFails).crash.Some?
    ensures var p := MoveGroups(entries, gs, moveFails);
      exists k: nat :: CrashedAfter(cls, entries, p.entries, gs, k, p.crash.value, moveFails)
  {
    MoveGroupsCrashAt(entries, gs, moveFails);
    var k: nat :| CrashesAt(entries, gs, k, moveFails);
    MoveGroupsSettles(cls, entries, gs, k, moveFails);
    assert CrashedAfter(cls, entries, MoveGroups(entries, gs, moveFails).entries, gs, k, gs[k].className, moveFails);
  }

  /**
    Where `organize_cards` leaves each root image. In a run that reports True, every
    image is settled: its class folder exists, it is still a root file iff its target
    already existed or its move raised, and the folder holds its name iff the target
    existed or the move went through; `moved_count` is the number of images that left
    the root as files. In a run whose `mkdir` raised because a file holds the class
    name, the groups before that class are settled in the same way and the rest are
    untouched.
  */
  lemma OrganizePlacesImages(present: bool, entries: map<string, Node>, order: seq<string>, moveFails: string -> bool)
    ensures var (outcome, after) := OrganizeResult(present, entries, order, moveFails);
      var images := RootImages(entries, order);
      && (outcome.Organized? ==> forall f :: f in images ==> Settled(ClassOf, entries, after, f, moveFails))
      && (outcome.Organized? ==> outcome.moved == |MovedImages(ClassOf, entries, images, moveFails)|)
      && (outcome.Organized? ==> outcome.moved == |set f | f in images && !(f in after && after[f] == File)|)
      && (outcome.Crashed? ==> exists k: nat :: CrashedAfter(ClassOf, entries, after, GroupByClass(images), k, outcome.className, moveFails))
  {
    var images := RootImages(entries, order);
    if present && |images| > 0 {
      var gs := GroupByClass(images);
      GroupsOfRootImages(entries, order);
      if MoveGroups(entries, gs, moveFails).crash.None? {
        MoveGroupsAll(ClassOf, entries, images, gs, moveFails);
      } else {
        MoveGroupsCrashed(ClassOf, entries, gs, moveFails);
      }
    }
  }

  /** A name is among the grouped files iff it is an image, and among the classes only if some image has it as class. */
  lemma GroupedNames(images: seq<string>, x: string)
    ensures x in Flatten(GroupByClass(images)) <==> x in images
    ensures x in ClassNames(GroupByClass(images)) ==> exists f :: f in images && ClassOf(f) == x
  {
    var gs := GroupByClass(images);
    GroupByClassPartition(images);
    assert x in multiset(Flatten(gs)) <==> x in multiset(images);
    if x in ClassNames(gs) {
      var i :| 0 <= i < |gs| && ClassNames(gs)[i] == x;
      var f := gs[i].files[0];
      FlattenMember(gs, i, f);
      assert f in multiset(images);
    }
  }

  lemma {:induction false} FlattenMember(gs: seq<Group>, i: nat, f: string)
    requires i < |gs| && f in gs[i].files
    ensures f in Flatten(gs)
  {
    if i > 0 {
      FlattenMember(gs[1..], i - 1, f);
    }
  }

  // ---------------------------------------------------------------------------
  // The cards folder
  // ---------------------------------------------------------------------------

  class CardsFolder {
    /** `cards_path.exists()`. */
    var present: bool
    /** The root entries by name. */
    var entries: map<string, Node>

    constructor(present: bool, entries: map<string, Node>)
      ensures this.present == present && this.entries == entries
    {
      this.present := present;
      this.entries := entries;
    }

    /** The image filter over `iterdir()`. */
    method ListRootImages(order: seq<string>) returns (images: seq<string>)
      ensures images == RootImages(entries, order)
    {
      images := [];
      var i := 0;
      while i < |order|
        invariant 0 <= i <= |order|
        invariant images == RootImages(entries, order[..i])
      {
        var f := order[i];
        RootImagesStep(entries, order, i);
        images := images + if IsRootImage(entries, f) then [f] else [];
        i := i + 1;
      }
      TakeAll(order);
    }

    /** `class_dir.mkdir(exist_ok=True)`; `false` when it raises. */
    method MakeDir(c: string) returns (ok: bool)
      modifies this
      ensures ok <==> MakeClassDir(old(entries), c).Some?
      ensures ok ==> entries == MakeClassDir(old(entries), c).value
      ensures !ok ==> entries == old(entries)
      ensures present == old(present)
    {
      if c !in entries {
        entries := entries[c := Folder({})];
        ok := true;
      } else {
        ok := entries[c].Folder?;
      }
    }

    /** The loop over one class's files. */
    method MoveClassFiles(c: string, files: seq<string>, moveFails: string -> bool) returns (moved: nat)
      requires c in entries && entries[c].Folder?
      modifies this
      ensures (entries, moved) == MoveFiles(old(entries), c, files, moveFails)
      ensures present == old(present)
    {
      moved := 0;
      var i := 0;
      PlacedNone(entries, c);
      assert MovedSet(entries, c, files[..0], moveFails) == {};
      while i < |files|
        invariant 0 <= i <= |files|
        invariant entries == Placed(old(entries), c, MovedSet(old(entries), c, files[..i], moveFails))
        invariant moved == |MovedSet(old(entries), c, files[..i], moveFails)|
        invariant present == old(present)
      {
        var f := files[i];
        MoveFileAfterPlaced(old(entries), c, files[..i + 1], moveFails);
        assert files[..i + 1][..i] == files[..i];
        ghost var step, before := MoveFile(entries, c, f, moveFails), moved;
        var names := entries[c].names;
        if f in names {
          // the target exists: the file stays in place
        } else if f in entries && f != c && !moveFails(f) {
          entries := (entries - {f})[c := Folder(names + {f})];
          moved := moved + 1;
        }
        assert entries == step.0 && moved == before + if step.1 then 1 else 0;
        i := i + 1;
      }
      assert files[..i] == files;
    }

    /** The loop over `class_groups`; a raising `mkdir` ends it with that class. */
    method MoveAll(groups: seq<Group>, moveFails: string -> bool) returns (moved: nat, crash: Option<string>)
      modifies this
      ensures Progress(entries, moved, crash) == MoveGroups(old(entries), groups, moveFails)
      ensures present == old(present)
    {
      moved, crash := 0, None;
      var i := 0;
      while i < |groups|
        invariant 0 <= i <= |groups|
        invariant Progress(entries, moved, None) == MoveGroups(old(entries), groups[..i], moveFails)
        invariant present == old(present)
      {
        var g := groups[i];
        MoveGroupsStep(old(entries), groups, i, moveFails);
        var ok := MakeDir(g.className);
        if !ok {
          crash := Some(g.className);
          MoveGroupsCrashStays(old(entries), groups, i + 1, moveFails);
          return;
        }
        var m := MoveClassFiles(g.className, g.files, moveFails);
        moved := moved + m;
        i := i + 1;
      }
      assert groups[..i] == groups;
    }

    /** `organize_cards(cards_dir)`. */
    method Organize(order: seq<string>, moveFails: string -> bool) returns (outcome: Outcome)
      modifies this
      ensures (outcome, entries) == OrganizeResult(old(present), old(entries), order, moveFails)
      ensures present == old(present)
      ensures outcome.Organized? ==>
        forall f :: f in RootImages(old(entries), order) ==> Settled(ClassOf, old(entries), entries, f, moveFails)
      ensures outcome.Organized? ==> outcome.moved == |MovedImages(ClassOf, old(entries), RootImages(old(entries), order), moveFails)|
    {
      OrganizePlacesImages(present, entries, order, moveFails);
      if !present {
        return NotFound;
      }
      var images := ListRootImages(order);
      if |images| == 0 {
        return NoImages;
      }
      var groups := GroupImages(images);
      var moved, crash := MoveAll(groups, moveFails);
      if crash.Some? {
        return Crashed(crash.value);
      }
      return Organized(moved);
    }
  }

  /** The loop that fills `class_groups`. */
  method GroupImages(images: seq<string>) returns (groups: seq<Group>)
    ensures groups == GroupByClass(images)
  {
    groups := [];
    var i := 0;
    while i < |images|
      invariant 0 <= i <= |images|
      invariant groups == GroupByClass(images[..i])
    {
      var f := images[i];
      assert images[..i + 1][..i] == images[..i];
      groups := AddToGroups(groups, ClassOf(f), f);
      i := i + 1;
    }
    assert images[..i] == images;
  }
}
