/** The initial ramdisk's shared libraries: the loop that copies every library the imported binaries need,
  directly or through other libraries, out of the target tree. */
module LibraryClosure {
  type Name = string

  /** The target tree: what the first file of each name lists as NEEDED. */
  type Target = map<Name, seq<Name>>

  /** A sort that drops duplicates, in whatever order the locale asks for. */
  ghost predicate KeepsNames(arrange: seq<Name> -> seq<Name>) {
    forall s: seq<Name>, x: Name :: x in arrange(s) <==> x in s
  }

  /** The list of names still to look at, the names in the ramdisk's library directory, and the loop flag. */
  datatype Import = Import(libs: seq<Name>, present: set<Name>, again: bool)

  // ----- what the loop does, as functions -----

  // The search command succeeds whether or not it finds anything, so a missing library also asks for another pass.
  function Bring(target: Target, s: Import, lib: Name): Import {
    if lib in s.present then s
    else if lib in target then Import(s.libs + target[lib], s.present + {lib}, true)
    else s.(again := true)
  }

  function BringAll(target: Target, s: Import, todo: seq<Name>): Import
    decreases |todo|
  {
    if todo == [] then s else BringAll(target, Bring(target, s, todo[0]), todo[1..])
  }

  // The names are read once, at the start of a pass: what a pass adds waits for the next one.
  function Pass(target: Target, arrange: seq<Name> -> seq<Name>, s: Import): Import {
    var s' := BringAll(target, s.(again := false), s.libs);
    s'.(libs := arrange(s'.libs))
  }

  function Start(arrange: seq<Name> -> seq<Name>, initial: set<Name>, roots: seq<Name>): Import {
    Import(arrange(roots), initial, true)
  }

  function Passes(target: Target, arrange: seq<Name> -> seq<Name>, s: Import, n: nat): Import {
    if n == 0 then s else Pass(target, arrange, Passes(target, arrange, s, n - 1))
  }

  ghost predicate Stops(target: Target, arrange: seq<Name> -> seq<Name>, s: Import, n: nat) {
    !Passes(target, arrange, s, n).again
  }

  // ----- which libraries are wanted -----

  /** A chain of NEEDED entries from an imported binary; nothing already in the ramdisk is looked into. */
  ghost predicate Chain(target: Target, initial: set<Name>, roots: seq<Name>, p: seq<Name>) {
    && p != [] && p[0] in roots
    && forall i :: 0 <= i < |p| - 1 ==> p[i] !in initial && p[i] in target && p[i + 1] in target[p[i]]
  }

  ghost predicate Wanted(target: Target, initial: set<Name>, roots: seq<Name>, x: Name) {
    exists p :: Chain(target, initial, roots, p) && p[|p| - 1] == x
  }

  ghost predicate AllFound(target: Target, initial: set<Name>, roots: seq<Name>) {
    forall x :: Wanted(target, initial, roots, x) ==> x in target || x in initial
  }

  lemma RootWanted(target: Target, initial: set<Name>, roots: seq<Name>, x: Name)
    requires x in roots
    ensures Wanted(target, initial, roots, x)
  {
    assert Chain(target, initial, roots, [x]) && [x][|[x]| - 1] == x;
  }

  lemma NeededWanted(target: Target, initial: set<Name>, roots: seq<Name>, x: Name, y: Name)
    requires Wanted(target, initial, roots, x) && x in target && x !in initial && y in target[x]
    ensures Wanted(target, initial, roots, y)
  {
    var p :| Chain(target, initial, roots, p) && p[|p| - 1] == x;
    var q := p + [y];
    assert Chain(target, initial, roots, q) && q[|q| - 1] == y;
  }

  // ----- what every pass keeps -----

  /** Only wanted names, only found files, and nothing copied whose own needs are not on the list. */
  ghost predicate Sound(target: Target, initial: set<Name>, roots: seq<Name>, s: Import) {
    && initial <= s.present
    && (forall x :: x in roots ==> x in s.libs)
    && (forall x :: x in s.libs ==> Wanted(target, initial, roots, x))
    && (forall x :: x in s.present - initial ==> x in target && Wanted(target, initial, roots, x))
    && (forall x, y :: x in s.present - initial && y in target[x] ==> y in s.libs)
  }

  lemma BringKeeps(target: Target, initial: set<Name>, roots: seq<Name>, s: Import, lib: Name)
    requires Sound(target, initial, roots, s) && Wanted(target, initial, roots, lib)
    ensures Sound(target, initial, roots, Bring(target, s, lib))
  {
    if lib !in s.present && lib in target {
      forall y | y in target[lib]
        ensures Wanted(target, initial, roots, y)
      {
        NeededWanted(target, initial, roots, lib, y);
      }
    }
  }

  lemma {:induction false} BringAllKeeps(target: Target, initial: set<Name>, roots: seq<Name>, s: Import,
                                         todo: seq<Name>)
    requires Sound(target, initial, roots, s)
    requires forall x :: x in todo ==> Wanted(target, initial, roots, x)
    ensures Sound(target, initial, roots, BringAll(target, s, todo))
    decreases |todo|
  {
    if todo != [] {
      BringKeeps(target, initial, roots, s, todo[0]);
      BringAllKeeps(target, initial, roots, Bring(target, s, todo[0]), todo[1..]);
    }
  }

  ghost predicate Missed(target: Target, s: Import, todo: seq<Name>) {
    exists x :: x in todo && x !in s.present && x !in target
  }

  ghost predicate Copied(target: Target, s: Import, s': Import) {
    exists x :: x in s'.present - s.present && x in target
  }

  /** A pass that asks for no other copied and missed nothing; one that does and missed nothing copied something. */
  lemma {:induction false} BringAllDoes(target: Target, s: Import, todo: seq<Name>)
    ensures var s' := BringAll(target, s, todo);
            && s.present <= s'.present
            && (s.again ==> s'.again)
            && (!s'.again ==> s'.present == s.present && s'.libs == s.libs && forall x :: x in todo ==> x in s.present)
            && (forall x :: x in todo && x in target ==> x in s'.present)
            && (!s.again && s'.again ==> Missed(target, s, todo) || Copied(target, s, s'))
            && (forall x :: x in s'.present - s.present ==> x in target)
    decreases |todo|
  {
    if todo != [] {
      var s1 := Bring(target, s, todo[0]);
      BringAllDoes(target, s1, todo[1..]);
      if s1.present != s.present {
        assert todo[0] in s1.present - s.present && todo[0] in target;
      }
    }
  }

  lemma PassKeeps(target: Target, arrange: seq<Name> -> seq<Name>, initial: set<Name>, roots: seq<Name>, s: Import)
    requires KeepsNames(arrange) && Sound(target, initial, roots, s)
    ensures Sound(target, initial, roots, Pass(target, arrange, s))
    ensures !Pass(target, arrange, s).again ==>
              forall x :: x in Pass(target, arrange, s).libs ==> x in Pass(target, arrange, s).present
  {
    BringAllKeeps(target, initial, roots, s.(again := false), s.libs);
    BringAllDoes(target, s.(again := false), s.libs);
  }

  /** While everything wanted can be found, another pass is asked for only after copying something. */
  lemma PassCopies(target: Target, arrange: seq<Name> -> seq<Name>, initial: set<Name>, roots: seq<Name>, s: Import)
    requires KeepsNames(arrange) && Sound(target, initial, roots, s) && AllFound(target, initial, roots)
    ensures var s' := Pass(target, arrange, s);
            s'.again ==> |target.Keys - s'.present| < |target.Keys - s.present|
  {
    BringAllDoes(target, s.(again := false), s.libs);
    var s' := Pass(target, arrange, s);
    if s'.again {
      var x :| x in s'.present - s.present && x in target;
      Fewer(target.Keys - s'.present, target.Keys - s.present, x);
    }
  }

  lemma Fewer(a: set<Name>, b: set<Name>, x: Name)
    requires a <= b && x in b && x !in a
    ensures |a| < |b|
  {
    Subset(a, b - {x});
  }

  lemma {:induction false} Subset(a: set<Name>, b: set<Name>)
    requires a <= b
    ensures |a| <= |b|
  {
    if x :| x in a {
      Subset(a - {x}, b - {x});
    }
  }

  lemma {:induction false} PassesKeep(target: Target, arrange: seq<Name> -> seq<Name>, initial: set<Name>,
                                      roots: seq<Name>, n: nat)
    requires KeepsNames(arrange)
    ensures Sound(target, initial, roots, Passes(target, arrange, Start(arrange, initial, roots), n))
  {
    if n == 0 {
      forall x | x in roots
        ensures Wanted(target, initial, roots, x)
      {
        RootWanted(target, initial, roots, x);
      }
    } else {
      PassesKeep(target, arrange, initial, roots, n - 1);
      PassKeeps(target, arrange, initial, roots, Passes(target, arrange, Start(arrange, initial, roots), n - 1));
    }
  }

  // ----- when it stops, and with what -----

  /** Everything on a chain is present once every listed name is. */
  lemma {:induction false} ChainPresent(target: Target, initial: set<Name>, roots: seq<Name>, s: Import, p: seq<Name>)
    requires Sound(target, initial, roots, s) && Chain(target, initial, roots, p)
    requires forall x :: x in s.libs ==> x in s.present
    ensures p[|p| - 1] in s.present
    decreases |p|
  {
    if |p| > 1 {
      var q := p[..|p| - 1];
      ChainPresent(target, initial, roots, s, q);
      assert p[|p| - 2] == q[|q| - 1];
    }
  }

  /** When the loop stops, the library directory holds what it held before and the wanted libraries: none missing,
    none extra. */
  lemma StopsWithTheClosure(target: Target, arrange: seq<Name> -> seq<Name>, initial: set<Name>, roots: seq<Name>,
                            n: nat)
    requires KeepsNames(arrange) && Stops(target, arrange, Start(arrange, initial, roots), n)
    ensures var s := Passes(target, arrange, Start(arrange, initial, roots), n);
            forall x :: x in s.present <==> x in initial || Wanted(target, initial, roots, x)
    ensures AllFound(target, initial, roots)
  {
    var s0 := Start(arrange, initial, roots);
    var s := Passes(target, arrange, s0, n);
    PassesKeep(target, arrange, initial, roots, n);
    PassesKeep(target, arrange, initial, roots, n - 1);
    PassKeeps(target, arrange, initial, roots, Passes(target, arrange, s0, n - 1));
    forall x | Wanted(target, initial, roots, x)
      ensures x in s.present
    {
      var p :| Chain(target, initial, roots, p) && p[|p| - 1] == x;
      ChainPresent(target, initial, roots, s, p);
    }
  }

  ghost function Left(target: Target, arrange: seq<Name> -> seq<Name>, initial: set<Name>, roots: seq<Name>,
                      n: nat): nat {
    |target.Keys - Passes(target, arrange, Start(arrange, initial, roots), n).present|
  }

  lemma StepFalls(target: Target, arrange: seq<Name> -> seq<Name>, initial: set<Name>, roots: seq<Name>, n: nat)
    requires KeepsNames(arrange) && AllFound(target, initial, roots)
    requires n > 0 && !Stops(target, arrange, Start(arrange, initial, roots), n)
    ensures Left(target, arrange, initial, roots, n) < Left(target, arrange, initial, roots, n - 1)
  {
    PassesKeep(target, arrange, initial, roots, n - 1);
    PassCopies(target, arrange, initial, roots, Passes(target, arrange, Start(arrange, initial, roots), n - 1));
  }

  lemma {:induction false} MeasureFalls(target: Target, arrange: seq<Name> -> seq<Name>, initial: set<Name>,
                                        roots: seq<Name>, n: nat)
    requires forall k: nat :: 0 < k <= n ==>
               Left(target, arrange, initial, roots, k) < Left(target, arrange, initial, roots, k - 1)
    ensures Left(target, arrange, initial, roots, n) + n <= |target.Keys - initial|
  {
    if n > 0 {
      MeasureFalls(target, arrange, initial, roots, n - 1);
    }
  }

  /** The loop stops exactly when every wanted library can be found, and then within one pass more than there are
    libraries to copy. */
  lemma StopsExactlyWhenAllFound(target: Target, arrange: seq<Name> -> seq<Name>, initial: set<Name>, roots: seq<Name>)
    requires KeepsNames(arrange)
    ensures (exists n: nat :: Stops(target, arrange, Start(arrange, initial, roots), n))
            <==> AllFound(target, initial, roots)
    ensures AllFound(target, initial, roots) ==>
              exists n: nat ::
                n <= |target.Keys - initial| + 1 && Stops(target, arrange, Start(arrange, initial, roots), n)
  {
    var s0 := Start(arrange, initial, roots);
    if n: nat :| Stops(target, arrange, s0, n) {
      StopsWithTheClosure(target, arrange, initial, roots, n);
    }
    if AllFound(target, initial, roots) {
      var m := |target.Keys - initial| + 1;
      if forall k: nat :: k <= m ==> !Stops(target, arrange, s0, k) {
        forall k: nat | 0 < k <= m
          ensures Left(target, arrange, initial, roots, k) < Left(target, arrange, initial, roots, k - 1)
        {
          assert !Stops(target, arrange, s0, k);
          StepFalls(target, arrange, initial, roots, k);
        }
        MeasureFalls(target, arrange, initial, roots, m);
        assert false;
      }
    }
  }

  // ----- the loop itself -----

  method OnePass(target: Target, arrange: seq<Name> -> seq<Name>, libs: seq<Name>, present: set<Name>)
    returns (libs': seq<Name>, present': set<Name>, recurse: bool)
    ensures Import(libs', present', recurse) == Pass(target, arrange, Import(libs, present, true))
  {
    libs', present', recurse := libs, present, false;
    ghost var s := Import(libs, present, false);
    for i := 0 to |libs|
      invariant BringAll(target, s, libs) == BringAll(target, Import(libs', present', recurse), libs[i..])
    {
      var lib := libs[i];
      assert libs[i..][1..] == libs[i + 1..];
      if lib !in present' {
        recurse := true;
        if lib in target {
          present' := present' + {lib};
          libs' := libs' + target[lib];
        }
      }
    }
    libs' := arrange(libs');
  }

  /** Run where every wanted library can be found (elsewhere the loop never ends), the import leaves exactly the wanted
    libraries beside what was there. */
  method ImportLibraries(target: Target, arrange: seq<Name> -> seq<Name>, initial: set<Name>, roots: seq<Name>)
    returns (present: set<Name>)
    requires KeepsNames(arrange) && AllFound(target, initial, roots)
    ensures forall x :: x in present <==> x in initial || Wanted(target, initial, roots, x)
  {
    var libs, recurse := arrange(roots), true;
    present := initial;
    ghost var n: nat := 0;
    ghost var s0 := Start(arrange, initial, roots);
    while recurse
      invariant Import(libs, present, recurse) == Passes(target, arrange, s0, n)
      decreases |target.Keys - present|, recurse
    {
      PassesKeep(target, arrange, initial, roots, n);
      PassCopies(target, arrange, initial, roots, Import(libs, present, recurse));
      PassGrows(target, arrange, Import(libs, present, recurse));
      libs, present, recurse := OnePass(target, arrange, libs, present);
      n := n + 1;
    }
    StopsWithTheClosure(target, arrange, initial, roots, n);
  }

  lemma PassGrows(target: Target, arrange: seq<Name> -> seq<Name>, s: Import)
    ensures |target.Keys - Pass(target, arrange, s).present| <= |target.Keys - s.present|
  {
    BringAllDoes(target, s.(again := false), s.libs);
    Subset(target.Keys - Pass(target, arrange, s).present, target.Keys - s.present);
  }
}
