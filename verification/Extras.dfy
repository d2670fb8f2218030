/** Whether an optional extra is installed: a search with a visited set through requirements that may form
    cycles. Names, extras and versions are in their normal form. */
module Extras {

  /** The marker of a requirement, as a condition on the extra for which it is evaluated. */
  datatype Marker = NoMarker | OnlyFor(extras: set<string>) | NotFor(extras: set<string>)

  datatype Range = AnyVersion | OneOf(versions: set<string>)

  datatype Req = Req(name: string, extras: seq<string>, range: Range, marker: Marker)

  /** An installed distribution: its version, the extras that it declares, and its requirements. */
  datatype Dist = Dist(version: string, provided: set<string>, requirements: seq<Req>)

  type World = map<string, Dist>

  /** What the search remembers of a requirement: its name and extras, but not its version range. */
  datatype Key = Key(name: string, extras: multiset<string>)

  function KeyOf(r: Req): Key {
    Key(r.name, multiset(r.extras))
  }

  predicate Active(r: Req, extra: string) {
    match r.marker
    case NoMarker => true
    case OnlyFor(extras) => extra in extras
    case NotFor(extras) => extra !in extras
  }

  predicate Accepts(range: Range, version: string) {
    range.OneOf? ==> version in range.versions
  }

  predicate AnyActive(rs: seq<Req>, extra: string) {
    rs != [] && (Active(rs[0], extra) || AnyActive(rs[1..], extra))
  }

  /** Every requirement of an installed distribution has its key among `keys`. */
  ghost predicate Covers(w: World, keys: set<Key>) {
    forall name, r :: name in w && r in w[name].requirements ==> KeyOf(r) in keys
  }

  // ----- the search, as functions that pass the visited keys on

  function Search(w: World, ghost keys: set<Key>, r: Req, extra: string, seen: set<Key>): (result: (bool, set<Key>))
    requires Covers(w, keys) && KeyOf(r) in keys && seen <= keys
    ensures seen <= result.1 <= keys
    decreases |keys - seen|, 0, 0
  {
    if !Active(r, extra) || KeyOf(r) in seen then (true, seen)
    else
      var now := seen + {KeyOf(r)};
      if r.name !in w || !Accepts(r.range, w[r.name].version) then (false, now)
      else
        assert keys - now < keys - seen by { assert KeyOf(r) in keys - seen; }
        Smaller(keys - now, keys - seen);
        SearchExtras(w, keys, r.name, r.extras, now)
  }

  function SearchExtras(w: World, ghost keys: set<Key>, name: string, extras: seq<string>, seen: set<Key>)
    : (result: (bool, set<Key>))
    requires Covers(w, keys) && name in w && seen <= keys
    ensures seen <= result.1 <= keys
    decreases |keys - seen|, 3, |extras|
  {
    if extras == [] then (true, seen)
    else
      var first := SearchExtra(w, keys, name, extras[0], seen);
      Fewer(keys, seen, first.1);
      if first.0 then SearchExtras(w, keys, name, extras[1..], first.1) else first
  }

  function SearchExtra(w: World, ghost keys: set<Key>, name: string, extra: string, seen: set<Key>)
    : (result: (bool, set<Key>))
    requires Covers(w, keys) && name in w && seen <= keys
    ensures seen <= result.1 <= keys
    decreases |keys - seen|, 2, 0
  {
    var d := w[name];
    if d.provided != {} && extra !in d.provided then (false, seen)
    else
      var deps := SearchRequirements(w, keys, d.requirements, extra, seen);
      (deps.0 && (AnyActive(d.requirements, extra) || d.provided != {}), deps.1)
  }

  function SearchRequirements(w: World, ghost keys: set<Key>, rs: seq<Req>, extra: string, seen: set<Key>)
    : (result: (bool, set<Key>))
    requires Covers(w, keys) && (forall r :: r in rs ==> KeyOf(r) in keys) && seen <= keys
    ensures seen <= result.1 <= keys
    decreases |keys - seen|, 1, |rs|
  {
    if rs == [] then (true, seen)
    else
      var first := Search(w, keys, rs[0], extra, seen);
      Fewer(keys, seen, first.1);
      if first.0 then SearchRequirements(w, keys, rs[1..], extra, first.1) else first
  }

  lemma Smaller(a: set<Key>, b: set<Key>)
    requires a < b
    ensures |a| < |b|
  {
    assert b == a + (b - a);
    assert b - a != {};
  }

  lemma Fewer(keys: set<Key>, seen: set<Key>, more: set<Key>)
    requires seen <= more
    ensures |keys - more| <= |keys - seen|
  {
    assert keys - more <= keys - seen;
    var a, b := keys - more, keys - seen;
    assert b == a + (b - a);
  }

  // ----- what an installed extra is

  /** The marker holds when it is evaluated for the extra. */
  predicate Applies(marker: Marker, extra: string) {
    && (marker.OnlyFor? ==> extra in marker.extras)
    && (marker.NotFor? ==> extra !in marker.extras)
  }

  predicate ExtraOk(d: Dist, extra: string) {
    if d.provided != {} then extra in d.provided else exists r :: r in d.requirements && Applies(r.marker, extra)
  }

  /** A requirement is met on its own: installed at an accepted version, and each requested extra is declared
      or, if the package declares none, activates some requirement. */
  ghost predicate Met(w: World, r: Req) {
    && r.name in w && (r.range == AnyVersion || w[r.name].version in r.range.versions)
    && forall e :: e in r.extras ==> ExtraOk(w[r.name], e)
  }

  /** `s` is a requirement of the package named by `r` that is active for one of the extras that `r` requests. */
  ghost predicate Next(w: World, r: Req, s: Req) {
    r.name in w && s in w[r.name].requirements && exists e :: e in r.extras && Applies(s.marker, e)
  }

  ghost predicate Path(w: World, p: seq<Req>) {
    p != [] && (|p| == 1 || (Next(w, p[0], p[1]) && Path(w, p[1..])))
  }

  /** Every requirement that can be reached from `root` through active markers is met. */
  ghost predicate AllMet(w: World, root: Req) {
    forall p: seq<Req> :: Path(w, p) && p[0] == root ==> Met(w, p[|p| - 1])
  }

  /** Reachable requirements with one name and the same extras agree on whether the installed version is
      accepted. Their version ranges may differ. */
  ghost predicate Agree(w: World, root: Req) {
    forall p: seq<Req>, q: seq<Req> ::
      Path(w, p) && Path(w, q) && p[0] == root && q[0] == root ==> SameVerdict(w, p[|p| - 1], q[|q| - 1])
  }

  predicate SameVerdict(w: World, r: Req, s: Req) {
    KeyOf(r) == KeyOf(s) && r.name in w ==> Accepts(r.range, w[r.name].version) == Accepts(s.range, w[r.name].version)
  }

  lemma {:induction false} AnyActiveIff(rs: seq<Req>, extra: string)
    ensures AnyActive(rs, extra) <==> exists r :: r in rs && Applies(r.marker, extra)
  {
    if rs != [] {
      AnyActiveIff(rs[1..], extra);
      assert forall r :: r in rs <==> r == rs[0] || r in rs[1..];
      assert Active(rs[0], extra) <==> Applies(rs[0].marker, extra);
    }
  }

  // ----- a negative answer has a reason

  /** A search that fails has a path of active requirements to one that is not met. */
  lemma {:induction false} FailureHasAPath(w: World, keys: set<Key>, r: Req, extra: string, seen: set<Key>)
    returns (p: seq<Req>)
    requires Covers(w, keys) && KeyOf(r) in keys && seen <= keys && !Search(w, keys, r, extra, seen).0
    ensures Active(r, extra) && Path(w, p) && p[0] == r && !Met(w, p[|p| - 1])
    decreases |keys - seen|, 0, 0
  {
    var now := seen + {KeyOf(r)};
    p := [r];
    if r.name in w && Accepts(r.range, w[r.name].version) {
      assert keys - now < keys - seen by { assert KeyOf(r) in keys - seen; }
      Smaller(keys - now, keys - seen);
      p := FailingExtras(w, keys, r, r.extras, now);
    }
  }

  lemma {:induction false} FailingExtras(w: World, keys: set<Key>, r: Req, extras: seq<string>, seen: set<Key>)
    returns (p: seq<Req>)
    requires Covers(w, keys) && r.name in w && seen <= keys && !SearchExtras(w, keys, r.name, extras, seen).0
    requires forall e :: e in extras ==> e in r.extras
    ensures Path(w, p) && p[0] == r && !Met(w, p[|p| - 1])
    decreases |keys - seen|, 3, |extras|
  {
    var first := SearchExtra(w, keys, r.name, extras[0], seen);
    Fewer(keys, seen, first.1);
    if first.0 {
      p := FailingExtras(w, keys, r, extras[1..], first.1);
    } else {
      p := FailingExtra(w, keys, r, extras[0], seen);
    }
  }

  lemma {:induction false} FailingExtra(w: World, keys: set<Key>, r: Req, extra: string, seen: set<Key>)
    returns (p: seq<Req>)
    requires Covers(w, keys) && r.name in w && seen <= keys && !SearchExtra(w, keys, r.name, extra, seen).0
             && extra in r.extras
    ensures Path(w, p) && p[0] == r && !Met(w, p[|p| - 1])
    decreases |keys - seen|, 2, 0
  {
    var d := w[r.name];
    p := [r];
    AnyActiveIff(d.requirements, extra);
    if ExtraOk(d, extra) {
      var q := FailingRequirements(w, keys, d.requirements, extra, seen);
      assert Next(w, r, q[0]);
      p := [r] + q;
      assert p[1..] == q;
    }
  }

  lemma {:induction false} FailingRequirements(w: World, keys: set<Key>, rs: seq<Req>, extra: string, seen: set<Key>)
    returns (p: seq<Req>)
    requires Covers(w, keys) && (forall r :: r in rs ==> KeyOf(r) in keys) && seen <= keys
    requires !SearchRequirements(w, keys, rs, extra, seen).0
    ensures Path(w, p) && p[0] in rs && Active(p[0], extra) && !Met(w, p[|p| - 1])
    decreases |keys - seen|, 1, |rs|
  {
    var first := Search(w, keys, rs[0], extra, seen);
    Fewer(keys, seen, first.1);
    if first.0 {
      p := FailingRequirements(w, keys, rs[1..], extra, first.1);
    } else {
      p := FailureHasAPath(w, keys, rs[0], extra, seen);
    }
  }

  // ----- a positive answer has seen everything

  ghost predicate Reached(w: World, root: Req, r: Req) {
    exists p :: Path(w, p) && p[0] == root && p[|p| - 1] == r
  }

  lemma {:induction false} PathSnoc(w: World, p: seq<Req>, s: Req)
    requires Path(w, p) && Next(w, p[|p| - 1], s)
    ensures Path(w, p + [s])
  {
    if |p| == 1 {
      assert (p + [s])[1..] == [s];
    } else {
      PathSnoc(w, p[1..], s);
      assert (p + [s])[1..] == p[1..] + [s];
    }
  }

  lemma ReachedOn(w: World, root: Req, r: Req, s: Req)
    requires Reached(w, root, r) && Next(w, r, s)
    ensures Reached(w, root, s)
  {
    var p :| Path(w, p) && p[0] == root && p[|p| - 1] == r;
    PathSnoc(w, p, s);
    assert (p + [s])[0] == root;
  }

  /** `r` is reachable and met, and the keys of all its successors were visited. */
  ghost predicate Explored(w: World, root: Req, r: Req, seen: set<Key>) {
    Reached(w, root, r) && Met(w, r) && forall s :: Next(w, r, s) ==> KeyOf(s) in seen
  }

  /** Every key visited since `seen` belongs to an explored requirement. */
  ghost predicate Closed(w: World, root: Req, seen: set<Key>, now: set<Key>, rep: map<Key, Req>) {
    forall k :: k in now && k !in seen ==> k in rep && KeyOf(rep[k]) == k && Explored(w, root, rep[k], now)
  }

  lemma ClosedOnward(w: World, root: Req, seen: set<Key>, mid: set<Key>, now: set<Key>, a: map<Key, Req>,
                     b: map<Key, Req>)
    returns (rep: map<Key, Req>)
    requires seen <= mid <= now && Closed(w, root, seen, mid, a) && Closed(w, root, mid, now, b)
    ensures Closed(w, root, seen, now, rep)
  {
    rep := b + map k | k in mid && k !in seen :: a[k];
    forall k | k in now && k !in seen ensures k in rep && KeyOf(rep[k]) == k && Explored(w, root, rep[k], now) {
      if k in mid {
        assert Explored(w, root, a[k], mid);
      }
    }
  }

  lemma {:induction false} SuccessIsClosed(w: World, keys: set<Key>, root: Req, r: Req, extra: string, seen: set<Key>)
    returns (rep: map<Key, Req>)
    requires Covers(w, keys) && KeyOf(r) in keys && seen <= keys && Search(w, keys, r, extra, seen).0
    requires Active(r, extra) ==> Reached(w, root, r)
    ensures Closed(w, root, seen, Search(w, keys, r, extra, seen).1, rep)
    ensures Active(r, extra) ==> KeyOf(r) in Search(w, keys, r, extra, seen).1
    decreases |keys - seen|, 0, 0
  {
    var now := seen + {KeyOf(r)};
    rep := map[];
    if Active(r, extra) && KeyOf(r) !in seen {
      assert keys - now < keys - seen by { assert KeyOf(r) in keys - seen; }
      Smaller(keys - now, keys - seen);
      var below := SuccessfulExtras(w, keys, root, r, r.extras, now);
      var end := SearchExtras(w, keys, r.name, r.extras, now).1;
      assert Explored(w, root, r, end);
      rep := below[KeyOf(r) := r];
      assert Closed(w, root, seen, end, rep) by {
        forall k | k in end && k !in seen ensures k in rep && KeyOf(rep[k]) == k && Explored(w, root, rep[k], end) {
          if k != KeyOf(r) { assert k !in now; }
        }
      }
    }
  }

  lemma {:induction false} SuccessfulExtras(w: World, keys: set<Key>, root: Req, r: Req, extras: seq<string>,
                                            seen: set<Key>)
    returns (rep: map<Key, Req>)
    requires Covers(w, keys) && r.name in w && seen <= keys && SearchExtras(w, keys, r.name, extras, seen).0
    requires Reached(w, root, r) && forall e :: e in extras ==> e in r.extras
    ensures Closed(w, root, seen, SearchExtras(w, keys, r.name, extras, seen).1, rep)
    ensures forall e :: e in extras ==> ExtraOk(w[r.name], e)
    ensures forall e, s :: e in extras && s in w[r.name].requirements && Active(s, e) ==>
              KeyOf(s) in SearchExtras(w, keys, r.name, extras, seen).1
    decreases |keys - seen|, 3, |extras|
  {
    rep := map[];
    if extras != [] {
      var first := SearchExtra(w, keys, r.name, extras[0], seen);
      Fewer(keys, seen, first.1);
      var a := SuccessfulExtra(w, keys, root, r, extras[0], seen);
      var b := SuccessfulExtras(w, keys, root, r, extras[1..], first.1);
      rep := ClosedOnward(w, root, seen, first.1, SearchExtras(w, keys, r.name, extras, seen).1, a, b);
      assert forall e :: e in extras <==> e == extras[0] || e in extras[1..];
    }
  }

  lemma {:induction false} SuccessfulExtra(w: World, keys: set<Key>, root: Req, r: Req, extra: string, seen: set<Key>)
    returns (rep: map<Key, Req>)
    requires Covers(w, keys) && r.name in w && seen <= keys && SearchExtra(w, keys, r.name, extra, seen).0
    requires Reached(w, root, r) && extra in r.extras
    ensures Closed(w, root, seen, SearchExtra(w, keys, r.name, extra, seen).1, rep) && ExtraOk(w[r.name], extra)
    ensures forall s :: s in w[r.name].requirements && Active(s, extra) ==>
              KeyOf(s) in SearchExtra(w, keys, r.name, extra, seen).1
    decreases |keys - seen|, 2, 0
  {
    AnyActiveIff(w[r.name].requirements, extra);
    rep := SuccessfulRequirements(w, keys, root, r, w[r.name].requirements, extra, seen);
  }

  lemma {:induction false} SuccessfulRequirements(w: World, keys: set<Key>, root: Req, r: Req, rs: seq<Req>,
                                                  extra: string, seen: set<Key>)
    returns (rep: map<Key, Req>)
    requires Covers(w, keys) && (forall s :: s in rs ==> KeyOf(s) in keys) && seen <= keys
    requires SearchRequirements(w, keys, rs, extra, seen).0
    requires Reached(w, root, r) && r.name in w && extra in r.extras
    requires forall s :: s in rs ==> s in w[r.name].requirements
    ensures Closed(w, root, seen, SearchRequirements(w, keys, rs, extra, seen).1, rep)
    ensures forall s :: s in rs && Active(s, extra) ==> KeyOf(s) in SearchRequirements(w, keys, rs, extra, seen).1
    decreases |keys - seen|, 1, |rs|
  {
    rep := map[];
    if rs != [] {
      var first := Search(w, keys, rs[0], extra, seen);
      Fewer(keys, seen, first.1);
      if Active(rs[0], extra) {
        assert Next(w, r, rs[0]);
        ReachedOn(w, root, r, rs[0]);
      }
      var a := SuccessIsClosed(w, keys, root, rs[0], extra, seen);
      var b := SuccessfulRequirements(w, keys, root, r, rs[1..], extra, first.1);
      rep := ClosedOnward(w, root, seen, first.1, SearchRequirements(w, keys, rs, extra, seen).1, a, b);
      assert forall s :: s in rs <==> s == rs[0] || s in rs[1..];
    }
  }

  lemma SameKeySameSuccessors(w: World, a: Req, b: Req, s: Req)
    requires KeyOf(a) == KeyOf(b) && Next(w, a, s)
    ensures Next(w, b, s)
  {
    var e :| e in a.extras && Applies(s.marker, e);
    SameExtras(a, b, e);
  }

  lemma SameExtras(a: Req, b: Req, e: string)
    requires KeyOf(a) == KeyOf(b)
    ensures e in a.extras <==> e in b.extras
  {
    assert e in a.extras <==> e in multiset(a.extras);
    assert e in b.extras <==> e in multiset(b.extras);
  }

  lemma {:induction false} PathsStayClosed(w: World, root: Req, now: set<Key>, rep: map<Key, Req>, r: Req, p: seq<Req>)
    requires Closed(w, root, {}, now, rep) && KeyOf(r) in now && Path(w, p) && p[0] == r
    ensures KeyOf(p[|p| - 1]) in now
    decreases |p|
  {
    if |p| > 1 {
      assert Explored(w, root, rep[KeyOf(r)], now);
      SameKeySameSuccessors(w, r, rep[KeyOf(r)], p[1]);
      PathsStayClosed(w, root, now, rep, p[1], p[1..]);
    }
  }

  lemma SameKeySameMet(w: World, a: Req, b: Req)
    requires KeyOf(a) == KeyOf(b) && SameVerdict(w, a, b) && Met(w, a)
    ensures Met(w, b)
  {
    forall e | e in b.extras ensures ExtraOk(w[b.name], e) {
      SameExtras(a, b, e);
    }
  }

  /** The keys that a search from `root` can meet. */
  ghost function Universe(w: World, root: Req): (keys: set<Key>)
    ensures Covers(w, keys) && KeyOf(root) in keys
  {
    {KeyOf(root)} + set name, r | name in w && r in w[name].requirements :: KeyOf(r)
  }

  predicate Installed(w: World, root: Req, extra: string) {
    Search(w, Universe(w, root), root, extra, {}).0
  }

  /** A positive answer says that everything reachable is met exactly if the reachable requirements agree. */
  lemma PositiveIsRightIff(w: World, root: Req, extra: string)
    requires Installed(w, root, extra) && Active(root, extra)
    ensures AllMet(w, root) <==> Agree(w, root)
  {
    if Agree(w, root) {
      assert Path(w, [root]);
      var rep := SuccessIsClosed(w, Universe(w, root), root, root, extra, {});
      var now := Search(w, Universe(w, root), root, extra, {}).1;
      forall p: seq<Req> | Path(w, p) && p[0] == root ensures Met(w, p[|p| - 1]) {
        AgreedIsMet(w, root, now, rep, p);
      }
    }
  }

  lemma AgreedIsMet(w: World, root: Req, now: set<Key>, rep: map<Key, Req>, p: seq<Req>)
    requires Closed(w, root, {}, now, rep) && KeyOf(root) in now && Agree(w, root) && Path(w, p) && p[0] == root
    ensures Met(w, p[|p| - 1])
  {
    var r := p[|p| - 1];
    PathsStayClosed(w, root, now, rep, root, p);
    var s := rep[KeyOf(r)];
    assert Explored(w, root, s, now);
    var q :| Path(w, q) && q[0] == root && q[|q| - 1] == s;
    SameKeySameMet(w, s, r);
  }

  /** For every installation, cyclic or not: a negative answer is right, and a positive one is right exactly if
      the reachable requirements agree. So the answer fails exactly where it is positive and they do not. */
  lemma {:induction false} AnswerIsRightIff(w: World, root: Req, extra: string)
    ensures !Installed(w, root, extra) ==> Active(root, extra) && !AllMet(w, root)
    ensures (Installed(w, root, extra) <==> Active(root, extra) ==> AllMet(w, root))
       <==> (Installed(w, root, extra) && Active(root, extra) ==> Agree(w, root))
  {
    if !Installed(w, root, extra) {
      var p := FailureHasAPath(w, Universe(w, root), root, extra, {});
    } else if Active(root, extra) {
      PositiveIsRightIff(w, root, extra);
    }
  }

  /** Among the reachable requirements there is one version range per name and extras. */
  ghost predicate OneRange(w: World, root: Req) {
    forall p: seq<Req>, q: seq<Req> ::
      Path(w, p) && Path(w, q) && p[0] == root && q[0] == root && KeyOf(p[|p| - 1]) == KeyOf(q[|q| - 1])
      ==> p[|p| - 1].range == q[|q| - 1].range
  }

  /** Where requirements agree the answer is exact, in particular with one range per name and extras. */
  lemma AgreedAnswerIsRight(w: World, root: Req, extra: string)
    ensures OneRange(w, root) ==> Agree(w, root)
    ensures Agree(w, root) ==> (Installed(w, root, extra) <==> Active(root, extra) ==> AllMet(w, root))
  {
    AnswerIsRightIff(w, root, extra);
    if OneRange(w, root) {
      forall p: seq<Req>, q: seq<Req> | Path(w, p) && Path(w, q) && p[0] == root && q[0] == root
        ensures SameVerdict(w, p[|p| - 1], q[|q| - 1])
      {
      }
    }
  }

  const LIB: Req := Req("lib", [], OneOf({"1"}), NoMarker)
  const OTHER_LIB: Req := Req("lib", [], OneOf({"2"}), NoMarker)
  const APP: Req := Req("app", ["x"], AnyVersion, NoMarker)
  const TWO_RANGES: World := map["lib" := Dist("1", {}, []), "app" := Dist("1", {"x"}, [LIB, OTHER_LIB])]

  lemma LibrarySearches(keys: set<Key>)
    requires Covers(TWO_RANGES, keys) && KeyOf(LIB) in keys && KeyOf(APP) in keys
    ensures KeyOf(LIB) == KeyOf(OTHER_LIB)
    ensures var seen := {KeyOf(APP)} + {KeyOf(LIB)};
            && Search(TWO_RANGES, keys, LIB, "x", {KeyOf(APP)}) == (true, seen)
            && Search(TWO_RANGES, keys, OTHER_LIB, "x", seen) == (true, seen)
  {
    var seen := {KeyOf(APP)} + {KeyOf(LIB)};
    assert KeyOf(APP).name == "app" && KeyOf(LIB).name == "lib" && "app"[0] != "lib"[0];
    assert SearchExtras(TWO_RANGES, keys, "lib", [], seen) == (true, seen);
  }

  lemma AppSearch(keys: set<Key>)
    requires Covers(TWO_RANGES, keys) && KeyOf(LIB) in keys && KeyOf(APP) in keys
    ensures Search(TWO_RANGES, keys, APP, "", {}).0
  {
    LibrarySearches(keys);
    var start, seen := {KeyOf(APP)}, {KeyOf(APP)} + {KeyOf(LIB)};
    var rs := TWO_RANGES["app"].requirements;
    assert rs[1..] == [OTHER_LIB] && rs[1..][1..] == [];
    assert SearchRequirements(TWO_RANGES, keys, rs[1..], "x", seen) == (true, seen);
    assert SearchRequirements(TWO_RANGES, keys, rs, "x", start) == (true, seen);
    assert SearchExtra(TWO_RANGES, keys, "app", "x", start) == (true, seen);
    assert APP.extras[1..] == [];
    assert SearchExtras(TWO_RANGES, keys, "app", APP.extras, start) == (true, seen);
    assert {} + start == start;
  }

  lemma OtherLibraryIsMissing()
    ensures !AllMet(TWO_RANGES, APP)
  {
    assert "x" in APP.extras && Active(OTHER_LIB, "x") && OTHER_LIB in TWO_RANGES["app"].requirements;
    assert Next(TWO_RANGES, APP, OTHER_LIB);
    var p := [APP, OTHER_LIB];
    assert p[1..] == [OTHER_LIB];
    assert Path(TWO_RANGES, p) && p[|p| - 1] == OTHER_LIB;
    assert "1" !in {"2"} by { assert "1"[0] != "2"[0]; }
  }

  /** Two requirements on one package that disagree on the installed version: the second range is never
      looked at, and the positive answer is wrong. */
  lemma SecondRangeIsIgnored()
    ensures Installed(TWO_RANGES, APP, "") && !Agree(TWO_RANGES, APP) && !AllMet(TWO_RANGES, APP)
  {
    assert LIB in TWO_RANGES["app"].requirements;
    AppSearch(Universe(TWO_RANGES, APP));
    OtherLibraryIsMissing();
    PositiveIsRightIff(TWO_RANGES, APP, "");
  }

  // ----- the search with a shared visited set

  class Probe {
    var seen: set<Key>

    constructor ()
      ensures seen == {}
    {
      seen := {};
    }

    method RequirementInstalled(w: World, ghost keys: set<Key>, r: Req, extra: string) returns (ok: bool)
      requires Covers(w, keys) && KeyOf(r) in keys && seen <= keys
      modifies this
      ensures (ok, seen) == Search(w, keys, r, extra, old(seen))
      decreases |keys - seen|, 0
    {
      if !Active(r, extra) || KeyOf(r) in seen {
        return true;
      }
      seen := seen + {KeyOf(r)};
      if r.name !in w || !Accepts(r.range, w[r.name].version) {
        return false;
      }
      ghost var now := seen;
      assert KeyOf(r) in keys - old(seen);
      Smaller(keys - now, keys - old(seen));
      for i := 0 to |r.extras|
        invariant now <= seen <= keys
        invariant SearchExtras(w, keys, r.name, r.extras, now) == SearchExtras(w, keys, r.name, r.extras[i..], seen)
      {
        assert r.extras[i..][0] == r.extras[i] && r.extras[i..][1..] == r.extras[i + 1..];
        Fewer(keys, now, seen);
        ok := ExtraDependenciesInstalled(w, keys, r.name, r.extras[i]);
        if !ok {
          return false;
        }
      }
      assert r.extras[|r.extras|..] == [];
      return true;
    }

    method ExtraDependenciesInstalled(w: World, ghost keys: set<Key>, name: string, extra: string) returns (ok: bool)
      requires Covers(w, keys) && name in w && seen <= keys
      modifies this
      ensures (ok, seen) == SearchExtra(w, keys, name, extra, old(seen))
      decreases |keys - seen|, 1
    {
      var dist := w[name];
      if dist.provided != {} && extra !in dist.provided {
        return false;
      }
      var matched := false;
      ghost var now := seen;
      for i := 0 to |dist.requirements|
        invariant now <= seen <= keys
        invariant SearchRequirements(w, keys, dist.requirements, extra, now)
                  == SearchRequirements(w, keys, dist.requirements[i..], extra, seen)
        invariant AnyActive(dist.requirements, extra) == (matched || AnyActive(dist.requirements[i..], extra))
      {
        ghost var rest := dist.requirements[i..];
        assert rest[0] == dist.requirements[i] && rest[1..] == dist.requirements[i + 1..];
        if !Active(dist.requirements[i], extra) {
          continue;
        }
        matched := true;
        Fewer(keys, now, seen);
        assert dist.requirements[i] in w[name].requirements;
        ok := RequirementInstalled(w, keys, dist.requirements[i], extra);
        if !ok {
          return false;
        }
      }
      assert dist.requirements[|dist.requirements|..] == [];
      return matched || dist.provided != {};
    }
  }

  /** Every requirement listed for the extra is installed; each search starts with nothing visited. */
  method ExtraInstalled(w: World, extra: string, deps: seq<Req>) returns (ok: bool)
    ensures ok <==> forall i :: 0 <= i < |deps| ==> Installed(w, deps[i], extra)
  {
    for i := 0 to |deps|
      invariant forall k :: 0 <= k < i ==> Installed(w, deps[k], extra)
    {
      var probe := new Probe();
      ok := probe.RequirementInstalled(w, Universe(w, deps[i]), deps[i], extra);
      if !ok {
        return false;
      }
    }
    return true;
  }

  /** For every list of requirements: if the extra does not count as installed, something that its active
      requirements reach is not met; if it does, all of it is met exactly where those requirements agree. */
  lemma ExtraIsInstalledIff(w: World, extra: string, deps: seq<Req>)
    ensures var installed := forall i :: 0 <= i < |deps| ==> Installed(w, deps[i], extra);
            var met := forall i :: 0 <= i < |deps| && Active(deps[i], extra) ==> AllMet(w, deps[i]);
            var agreed := forall i :: 0 <= i < |deps| && Active(deps[i], extra) ==> Agree(w, deps[i]);
            && (!installed ==> !met)
            && (installed ==> (met <==> agreed))
            && (agreed ==> (installed <==> met))
  {
    forall i | 0 <= i < |deps|
      ensures Installed(w, deps[i], extra) && Active(deps[i], extra) ==> (AllMet(w, deps[i]) <==> Agree(w, deps[i]))
      ensures !Installed(w, deps[i], extra) ==> Active(deps[i], extra) && !AllMet(w, deps[i])
    {
      AnswerIsRightIff(w, deps[i], extra);
    }
  }
}
