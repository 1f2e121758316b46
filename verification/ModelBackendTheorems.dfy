/** What each operation of the deterministic backend changes, and how long what it gave out lasts. */
module ModelBackendTheorems {
  import opened Words
  import opened Wrappers
  import opened ModelBackend

  ghost function From(b: Backend, later: seq<Step>): Backend
    decreases |later|
  {
    if later == [] then b else Next(From(b, later[..|later| - 1]), later[|later| - 1])
  }

  /** Whatever is still alive is what it was. */
  ghost predicate Faithful(b: Backend, c: Backend) {
    forall v :: v in b.values && v in c.values ==> c.values[v] == b.values[v]
  }

  lemma UnrootIsFaithful(b: Backend, v: Id)
    ensures Faithful(b, Unroot(b, v)) && Unroot(b, v).values.Keys <= b.values.Keys
    ensures forall w :: w in b.values && w != v ==> w in Unroot(b, v).values
  {
  }

  lemma {:induction false} DropLocalsIsFaithful(b: Backend, todo: set<Id>)
    ensures Faithful(b, DropLocals(b, todo)) && DropLocals(b, todo).values.Keys <= b.values.Keys
    decreases todo
  {
    if todo != {} {
      var v :| v in todo && DropLocals(b, todo) == DropLocals(Unroot(b, v), todo - {v});
      UnrootIsFaithful(b, v);
      DropLocalsIsFaithful(Unroot(b, v), todo - {v});
    }
  }

  lemma CloseIsFaithful(b: Backend)
    ensures Faithful(b, Next(b, CloseScope))
  {
    if b.locals.Some? {
      DropLocalsIsFaithful(b, b.locals.value);
    }
  }

  lemma ReleaseIsFaithful(b: Backend, root: Id)
    ensures Faithful(b, Next(b, Release(root)))
  {
    if root in b.roots {
      UnrootIsFaithful(b.(roots := b.roots - {root}), b.roots[root]);
    }
  }

  lemma InsertIsFaithful(b: Backend, s: Step)
    requires Inv(b) && (s.Insert? || s.Externalize?)
    ensures Faithful(b, Next(b, s))
  {
  }

  lemma StepIsFaithful(b: Backend, s: Step)
    requires Inv(b)
    ensures Faithful(b, Next(b, s))
  {
    match s
    case CloseScope => CloseIsFaithful(b);
    case Release(root) => ReleaseIsFaithful(b, root);
    case Insert(_, _) => InsertIsFaithful(b, s);
    case Externalize(_, _, _) => InsertIsFaithful(b, s);
    case _ => assert Next(b, s).values == b.values;
  }

  lemma CloseKeepsRoots(b: Backend)
    requires b.locals.Some?
    ensures Next(b, CloseScope).roots == b.roots
  {
    DropLocalsShape(b, b.locals.value);
  }

  lemma ReleaseKeepsOthers(b: Backend, r: Id, root: Id)
    requires r != root && b.locals.Some? && r in b.roots && root in b.roots
    ensures r in DoRelease(b, root).roots && DoRelease(b, root).roots[r] == b.roots[r]
  {
    UnrootShape(b.(roots := b.roots - {root}), b.roots[root]);
  }

  lemma StepKeepsRoot(b: Backend, s: Step, r: Id)
    requires Inv(b) && r in b.roots && s != Release(r)
    ensures var c := Next(b, s); r in c.roots && c.roots[r] == b.roots[r]
  {
    match s
    case CloseScope => if b.locals.Some? { CloseKeepsRoots(b); }
    case Release(root) => if b.locals.Some? && root in b.roots { ReleaseKeepsOthers(b, r, root); }
    case _ =>
  }

  /** A root that is not released resolves to the same value, alive and unchanged, over every run, whatever scopes
      open and close. */
  lemma {:induction false} RootLasts(b: Backend, later: seq<Step>, r: Id)
    requires Inv(b) && r in b.roots && Release(r) !in later
    ensures var c := From(b, later);
            && Inv(c) && r in c.roots && c.roots[r] == b.roots[r]
            && b.roots[r] in c.values && c.values[b.roots[r]] == b.values[b.roots[r]]
    decreases |later|
  {
    if later != [] {
      var before, s := later[..|later| - 1], later[|later| - 1];
      assert Release(r) !in before && s != Release(r);
      RootLasts(b, before, r);
      var c := From(b, before);
      StepKeepsInv(c, s);
      StepIsFaithful(c, s);
      StepKeepsRoot(c, s, r);
    }
  }

  lemma StepKeepsLocal(b: Backend, s: Step, v: Id)
    requires Inv(b) && b.locals.Some? && v in b.locals.value && !s.CloseScope?
    ensures var c := Next(b, s); c.locals.Some? && v in c.locals.value
  {
    if s.Release? && s.root in b.roots {
      UnrootShape(b.(roots := b.roots - {s.root}), b.roots[s.root]);
    }
  }

  /** A value the open scope has given out stays alive and unchanged until the scope closes, whatever roots of it
      are released. */
  lemma {:induction false} LocalLasts(b: Backend, later: seq<Step>, v: Id)
    requires Inv(b) && b.locals.Some? && v in b.locals.value && CloseScope !in later
    ensures var c := From(b, later);
            && Inv(c) && c.locals.Some? && v in c.locals.value
            && v in c.values && c.values[v] == b.values[v]
    decreases |later|
  {
    if later != [] {
      var before, s := later[..|later| - 1], later[|later| - 1];
      assert CloseScope !in before && s != CloseScope;
      LocalLasts(b, before, v);
      var c := From(b, before);
      StepKeepsInv(c, s);
      StepIsFaithful(c, s);
      StepKeepsLocal(c, s, v);
    }
  }

  /** A value made in the open scope is new, belongs to the scope, and leaves every other value and root alone. */
  lemma {:induction false} InsertsExactly(steps: seq<Step>, id: Id, function_: bool)
    requires var b := Run(steps); b.locals.Some? && id !in b.issuedValues
    ensures var b, c := Run(steps), Next(Run(steps), Insert(id, function_));
            && id !in b.values
            && c.values == b.values[id := if function_ then Function else Primitive]
            && c.locals == Some(b.locals.value + {id})
            && (c.roots, c.owners, c.views, c.stats) == (b.roots, b.owners, b.views, b.stats)
  {
    RunKeepsInv(steps);
  }

  lemma FailedTransfer(b: Backend, id: Id, length: nat)
    requires Inv(b) && b.locals.Some? && Fits(b, length)
    ensures var c := DoExternalize(b, id, length, AcceptThenFail);
            && c == b.(everAccepted := b.everAccepted + 1, stats := c.stats) && Counted(c)
            && c.stats.liveBytes == b.stats.liveBytes
  {
    AcceptThenDrop(b, length);
    RejectedAfterAccept(b, length);
  }

  lemma FinishedTransfer(b: Backend, id: Id, length: nat)
    requires Inv(b) && b.locals.Some? && id !in b.issuedValues && Fits(b, length)
    ensures var c := DoExternalize(b, id, length, NoFault);
            && b.everAccepted !in b.owners && id !in b.values
            && c.owners == b.owners[b.everAccepted := length]
            && c.values == b.values[id := External(b.everAccepted)] && c.locals == Some(b.locals.value + {id})
            && c.stats.liveBytes == b.stats.liveBytes + length
            && (c.roots, c.views) == (b.roots, b.views)
  {
  }

  /** A rejected transfer leaves the buffer with its caller and everything as it was. One that fails after acceptance
      has consumed it: one owner more was accepted, none more is live, and no value names it. One that
      succeeds leaves a new live owner of that length behind a new value of the scope. */
  lemma {:induction false} TransfersExactly(steps: seq<Step>, id: Id, length: nat, fault: Fault)
    requires var b := Run(steps); b.locals.Some? && id !in b.issuedValues && Fits(b, length)
    ensures var b, c := Run(steps), Next(Run(steps), Externalize(id, length, fault));
            && (fault.Reject? ==> c == b)
            && (fault.AcceptThenFail? ==>
                  && c == b.(everAccepted := b.everAccepted + 1, stats := c.stats) && Counted(c)
                  && c.stats.liveBytes == b.stats.liveBytes)
            && (fault.NoFault? ==>
                  && b.everAccepted !in b.owners && id !in b.values
                  && c.owners == b.owners[b.everAccepted := length]
                  && c.values == b.values[id := External(b.everAccepted)] && c.locals == Some(b.locals.value + {id})
                  && c.stats.liveBytes == b.stats.liveBytes + length
                  && (c.roots, c.views) == (b.roots, b.views))
  {
    RunKeepsInv(steps);
    FailedTransfer(Run(steps), id, length);
    FinishedTransfer(Run(steps), id, length);
  }

  /** A live value of an open scope can be rooted, under a root never issued before; a live root resolves into the
      scope. Neither touches a value. */
  lemma {:induction false} PersistsExactly(steps: seq<Step>, v: Id, root: Id)
    requires var b := Run(steps); b.locals.Some? && root !in b.issuedRoots
    ensures var b, c := Run(steps), Next(Run(steps), Persist(v, root));
            && root !in b.roots
            && c == (if v in b.values then b.(roots := b.roots[root := v], issuedRoots := b.issuedRoots + {root}) else b)
            && (v in b.values ==> Next(c, Resolve(root)) == c.(locals := Some(c.locals.value + {v})))
  {
    RunKeepsInv(steps);
  }

  lemma DropViewSettles(b: Backend, view: nat)
    requires Owned(b) && view in b.views
    ensures var c, o := Next(b, DropView(view)), b.views[view];
            && c.views == b.views - {view} && c.values == b.values
            && (o in c.owners <==> External(o) in b.values.Values || exists w :: w in b.views && w != view && b.views[w] == o)
            && (forall p :: p != o ==> (p in c.owners <==> p in b.owners))
  {
    var o := b.views[view];
    var rest := b.(views := b.views - {view});
    assert Shared(b, o);
    if o in rest.views.Values {
      var w :| w in rest.views && rest.views[w] == o;
      assert w in b.views && w != view && b.views[w] == o;
    }
    if w :| w in b.views && w != view && b.views[w] == o {
      assert rest.views[w] == o;
    }
  }

  /** Ending a view finalizes its owner exactly when neither a value nor another view shares it. */
  lemma {:induction false} DropViewFinalizes(steps: seq<Step>, view: nat)
    requires view in Run(steps).views
    ensures var b := Run(steps);
            var c, o := Next(b, DropView(view)), b.views[view];
            && c.views == b.views - {view} && c.values == b.values
            && (o in c.owners <==> External(o) in b.values.Values || exists w :: w in b.views && w != view && b.views[w] == o)
            && (forall p :: p != o ==> (p in c.owners <==> p in b.owners))
  {
    RunKeepsInv(steps);
    DropViewSettles(Run(steps), view);
  }

  /** A view is lent of live buffers only, shares the buffer's owner, and changes nothing else. */
  lemma {:induction false} ViewsExactly(steps: seq<Step>, v: Id, view: nat)
    requires var b := Run(steps); b.locals.Some? && view !in b.views
    ensures var b := Run(steps);
            var c := Next(b, View(v, view));
            if v in b.values && b.values[v].External?
            then b.values[v].owner in b.owners && c == b.(views := b.views[view := b.values[v].owner])
            else c == b
  {
    RunKeepsInv(steps);
    var b := Run(steps);
    if v in b.values && b.values[v].External? {
      assert Shared(b, b.values[v].owner);
    }
  }
}
