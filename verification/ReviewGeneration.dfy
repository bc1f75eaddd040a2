/** Which reviews an activation generates, for any finite supervisor relation. */
module ReviewGeneration {
  import opened Common
  import opened ReviewModel

  predicate Covers(users: seq<UserId>, sup: map<UserId, Option<UserId>>) {
    forall u :: u in users ==> u in sup
  }

  /** (u, u), (u, supervisor of u) and (supervisor of u, u), over the eligible users u. */
  predicate Due(users: seq<UserId>, sup: map<UserId, Option<UserId>>, about: UserId, author: UserId)
    requires Covers(users, sup)
  {
    (about == author && about in users) || (about in users && sup[about] == Some(author)) ||
        (author in users && sup[author] == Some(about))
  }

  lemma WantedConcat(xs: seq<Assignment>, ys: seq<Assignment>, a: UserId, b: UserId)
    ensures Wanted(xs + ys, a, b) <==> Wanted(xs, a, b) || Wanted(ys, a, b)
  {
    var zs := xs + ys;
    if i :| 0 <= i < |xs| && xs[i].about == a && xs[i].author == b { assert zs[i] == xs[i]; }
    if i :| 0 <= i < |ys| && ys[i].about == a && ys[i].author == b { assert zs[|xs| + i] == ys[i]; }
  }

  lemma WantedFor(u: UserId, s: Option<UserId>, a: UserId, b: UserId)
    ensures Wanted(AssignmentsFor(u, s), a, b)
            <==> (a == u && b == u) || (s.Some? && a == u && b == s.value) || (s.Some? && a == s.value && b == u)
  {
    var xs := AssignmentsFor(u, s);
    assert xs[0] == Assignment(u, u, SelfReview);
    if s.Some? {
      assert xs[1] == Assignment(u, s.value, ManagerReview) && xs[2] == Assignment(s.value, u, UpwardReview);
    }
  }

  lemma {:induction false} RequestsAreDue(users: seq<UserId>, sup: map<UserId, Option<UserId>>, a: UserId, b: UserId)
    requires Covers(users, sup)
    ensures Wanted(Assignments(users, sup), a, b) <==> Due(users, sup, a, b)
  {
    if users != [] {
      var front, u := users[..|users| - 1], users[|users| - 1];
      assert u in users && forall v :: v in users <==> v in front || v == u;
      RequestsAreDue(front, sup, a, b);
      WantedConcat(Assignments(front, sup), AssignmentsFor(u, sup[u]), a, b);
      WantedFor(u, sup[u], a, b);
    }
  }

  // ------------------------------------------------------------------ the filter

  predicate NoRepeats(xs: seq<Assignment>) {
    forall i, j :: 0 <= i < j < |xs| ==> xs[i].about != xs[j].about || xs[i].author != xs[j].author
  }

  lemma {:induction false} DedupKeepsPairs(xs: seq<Assignment>, a: UserId, b: UserId)
    ensures Wanted(Dedup(xs), a, b) <==> Wanted(xs, a, b)
  {
    if xs != [] {
      var front, x := xs[..|xs| - 1], xs[|xs| - 1];
      DedupKeepsPairs(front, a, b);
      assert xs == front + [x];
      WantedConcat(front, [x], a, b);
      WantedConcat(Dedup(front), [x], a, b);
      assert Wanted([x], a, b) <==> (x.about == a && x.author == b) by { assert [x][0] == x; }
    }
  }

  lemma {:induction false} DedupHasNoRepeats(xs: seq<Assignment>)
    ensures NoRepeats(Dedup(xs))
  {
    if xs != [] {
      var front, x := xs[..|xs| - 1], xs[|xs| - 1];
      DedupHasNoRepeats(front);
      DedupKeepsPairs(front, x.about, x.author);
    }
  }

  predicate SelfIsSelf(xs: seq<Assignment>) {
    forall i :: 0 <= i < |xs| && xs[i].about == xs[i].author ==> xs[i].kind == SelfReview
  }

  predicate NoPeers(xs: seq<Assignment>) {
    forall i :: 0 <= i < |xs| ==> xs[i].kind != PeerReview
  }

  /** Of the two self-supervision requests that follow it, the self review comes first and stays. */
  lemma {:induction false} SelfFirst(users: seq<UserId>, sup: map<UserId, Option<UserId>>)
    requires Covers(users, sup)
    ensures SelfIsSelf(Dedup(Assignments(users, sup))) && NoPeers(Dedup(Assignments(users, sup)))
  {
    if users != [] {
      var front, u := users[..|users| - 1], users[|users| - 1];
      assert u in users;
      SelfFirst(front, sup);
      var xs, ys := Assignments(front, sup), AssignmentsFor(u, sup[u]);
      DedupAppendSelf(xs, Assignment(u, u, SelfReview));
      if sup[u].Some? {
        var v := sup[u].value;
        var x1 := xs + [Assignment(u, u, SelfReview)];
        var x2 := x1 + [Assignment(u, v, ManagerReview)];
        DedupAppend(x1, Assignment(u, v, ManagerReview), u);
        DedupAppend(x2, Assignment(v, u, UpwardReview), u);
        assert xs + ys == x2 + [Assignment(v, u, UpwardReview)];
      } else {
        assert xs + ys == xs + [Assignment(u, u, SelfReview)];
      }
    }
  }

  lemma DedupAppendSelf(xs: seq<Assignment>, x: Assignment)
    requires SelfIsSelf(Dedup(xs)) && NoPeers(Dedup(xs)) && x.kind == SelfReview
    ensures SelfIsSelf(Dedup(xs + [x])) && NoPeers(Dedup(xs + [x]))
    ensures Wanted(xs + [x], x.about, x.author)
  {
    DedupSnoc(xs, x);
    GoodSnoc(Dedup(xs), x);
    WantedConcat(xs, [x], x.about, x.author);
    assert Wanted([x], x.about, x.author) by { assert [x][0] == x; }
  }

  lemma GoodSnoc(xs: seq<Assignment>, x: Assignment)
    requires SelfIsSelf(xs) && NoPeers(xs) && x.kind != PeerReview && (x.about == x.author ==> x.kind == SelfReview)
    ensures SelfIsSelf(xs + [x]) && NoPeers(xs + [x])
  {
  }

  lemma DedupSnoc(xs: seq<Assignment>, x: Assignment)
    ensures Dedup(xs + [x]) == if Wanted(xs, x.about, x.author) then Dedup(xs) else Dedup(xs) + [x]
  {
    assert (xs + [x])[..|xs|] == xs;
  }

  lemma DedupAppend(xs: seq<Assignment>, x: Assignment, u: UserId)
    requires SelfIsSelf(Dedup(xs)) && NoPeers(Dedup(xs)) && x.kind != PeerReview
    requires Wanted(xs, u, u) && (x.about == x.author ==> x.about == u)
    ensures SelfIsSelf(Dedup(xs + [x])) && NoPeers(Dedup(xs + [x])) && Wanted(xs + [x], u, u)
  {
    DedupSnoc(xs, x);
    if !Wanted(xs, x.about, x.author) { GoodSnoc(Dedup(xs), x); }
    WantedConcat(xs, [x], u, u);
  }

  // ------------------------------------------------------------------ who reviews as what

  /** A manager review is by the reviewee's supervisor, an upward review is about the reviewer's. */
  predicate Fits(x: Assignment, users: seq<UserId>, sup: map<UserId, Option<UserId>>)
    requires Covers(users, sup)
  {
    match x.kind
    case SelfReview => x.about == x.author && x.about in users
    case ManagerReview => x.about in users && sup[x.about] == Some(x.author)
    case UpwardReview => x.author in users && sup[x.author] == Some(x.about)
    case PeerReview => false
  }

  lemma {:induction false} RequestsFit(users: seq<UserId>, sup: map<UserId, Option<UserId>>, x: Assignment)
    requires Covers(users, sup) && x in Assignments(users, sup)
    ensures Fits(x, users, sup)
  {
    var front, u := users[..|users| - 1], users[|users| - 1];
    assert u in users && forall v :: v in front ==> v in users;
    if x in Assignments(front, sup) { RequestsFit(front, sup, x); }
    else { assert x in AssignmentsFor(u, sup[u]); }
  }

  lemma {:induction false} DedupAddsNothing(xs: seq<Assignment>, x: Assignment)
    requires x in Dedup(xs)
    ensures x in xs
  {
    var front := xs[..|xs| - 1];
    if x in Dedup(front) { DedupAddsNothing(front, x); }
  }

  // ------------------------------------------------------------------ how many

  function Supervised(users: seq<UserId>, sup: map<UserId, Option<UserId>>): nat
    requires Covers(users, sup)
  {
    if users == [] then 0
    else
      assert users[|users| - 1] in users;
      Supervised(users[..|users| - 1], sup) + (if sup[users[|users| - 1]].Some? then 1 else 0)
  }

  /** Nobody supervises themselves, and no two eligible users supervise each other. */
  predicate NoLoops(users: seq<UserId>, sup: map<UserId, Option<UserId>>)
    requires Covers(users, sup)
  {
    && (forall u :: u in users ==> sup[u] != Some(u))
    && (forall u, v :: u in users && v in users && sup[u] == Some(v) ==> sup[v] != Some(u))
  }

  lemma {:induction false} RequestCount(users: seq<UserId>, sup: map<UserId, Option<UserId>>)
    requires Covers(users, sup)
    ensures |Assignments(users, sup)| == |users| + 2 * Supervised(users, sup)
  {
    if users != [] {
      assert users[|users| - 1] in users;
      RequestCount(users[..|users| - 1], sup);
    }
  }

  /** The filter drops nothing exactly when no pair repeats. */
  lemma {:induction false} DedupSize(xs: seq<Assignment>)
    ensures |Dedup(xs)| <= |xs| && (|Dedup(xs)| == |xs| <==> NoRepeats(xs))
  {
    if xs != [] {
      var front, x := xs[..|xs| - 1], xs[|xs| - 1];
      DedupSize(front);
      NoRepeatsStep(front, x);
      assert xs == front + [x];
    }
  }

  lemma NoRepeatsStep(front: seq<Assignment>, x: Assignment)
    ensures NoRepeats(front + [x]) <==> NoRepeats(front) && !Wanted(front, x.about, x.author)
  {
    var xs := front + [x];
    assert forall i :: 0 <= i < |front| ==> xs[i] == front[i];
    assert xs[|front|] == x;
  }

  /** Three requests appended for a supervised user whose self pair is new. */
  lemma AppendSupervised(xs: seq<Assignment>, u: UserId, v: UserId)
    requires !Wanted(xs, u, u)
    ensures NoRepeats(xs + AssignmentsFor(u, Some(v))) <==>
        NoRepeats(xs) && u != v && !Wanted(xs, u, v) && !Wanted(xs, v, u)
  {
    var x, y, z := Assignment(u, u, SelfReview), Assignment(u, v, ManagerReview), Assignment(v, u, UpwardReview);
    NoRepeatsStep(xs, x);
    NoRepeatsStep(xs + [x], y);
    NoRepeatsStep(xs + [x] + [y], z);
    WantedConcat(xs, [x], u, v);
    WantedConcat(xs + [x], [y], v, u);
    WantedConcat(xs, [x], v, u);
    assert [x][0] == x && [y][0] == y;
    assert xs + AssignmentsFor(u, Some(v)) == xs + [x] + [y] + [z];
  }

  lemma LoopsStep(users: seq<UserId>, sup: map<UserId, Option<UserId>>)
    requires users != [] && Covers(users, sup) && Unique(users) && Covers(users[..|users| - 1], sup)
    ensures var front, u := users[..|users| - 1], users[|users| - 1];
            u in users && u !in front &&
            (NoLoops(users, sup) <==> NoLoops(front, sup) && sup[u] != Some(u) && forall v ::
             v in front && sup[u] == Some(v) ==> sup[v] != Some(u))
  {
    var front, u := users[..|users| - 1], users[|users| - 1];
    assert u in users && u !in front && forall w :: w in users <==> w in front || w == u;
  }

  /** The request list repeats a pair exactly when the supervisor relation loops. */
  lemma {:induction false} RepeatsAreLoops(users: seq<UserId>, sup: map<UserId, Option<UserId>>)
    requires Covers(users, sup) && Unique(users)
    ensures NoRepeats(Assignments(users, sup)) <==> NoLoops(users, sup)
  {
    if users != [] {
      var front, u := users[..|users| - 1], users[|users| - 1];
      RepeatsAreLoops(front, sup);
      LoopsStep(users, sup);
      var xs := Assignments(front, sup);
      RequestsAreDue(front, sup, u, u);
      if sup[u].Some? {
        var v := sup[u].value;
        RequestsAreDue(front, sup, u, v);
        RequestsAreDue(front, sup, v, u);
        AppendSupervised(xs, u, v);
      } else {
        NoRepeatsStep(xs, Assignment(u, u, SelfReview));
        assert AssignmentsFor(u, sup[u]) == [Assignment(u, u, SelfReview)];
      }
    }
  }

  /** For any finite supervisor relation, with self-supervision, mutual supervision and supervisors who
      are not eligible themselves: the generated pairs are distinct, they are exactly the due ones, each
      of a kind that fits, a self pair always a self review, and there is one per user and two more per supervised user
      exactly when the relation has no loops and no two-cycles. */
  lemma GenerationIsExact(users: seq<UserId>, sup: map<UserId, Option<UserId>>)
    requires Covers(users, sup) && Unique(users)
    ensures var xs := Dedup(Assignments(users, sup));
            && NoRepeats(xs) && SelfIsSelf(xs) && NoPeers(xs)
            && (forall a, b :: Wanted(xs, a, b) <==> Due(users, sup, a, b))
            && (forall x :: x in xs ==> Fits(x, users, sup))
            && (|xs| == |users| + 2 * Supervised(users, sup) <==> NoLoops(users, sup))
  {
    var all := Assignments(users, sup);
    DedupHasNoRepeats(all);
    SelfFirst(users, sup);
    forall a, b ensures Wanted(Dedup(all), a, b) <==> Due(users, sup, a, b) {
      DedupKeepsPairs(all, a, b);
      RequestsAreDue(users, sup, a, b);
    }
    forall x | x in Dedup(all) ensures Fits(x, users, sup) {
      DedupAddsNothing(all, x);
      RequestsFit(users, sup, x);
    }
    RequestCount(users, sup);
    DedupSize(all);
    RepeatsAreLoops(users, sup);
  }

  // ------------------------------------------------------------------ the inserted rows

  predicate IsInserted(r: Review, org: OrgId) {
    r.org == org && r.status == Pending && r.responses == None && r.score == None && r.kind != PeerReview
  }

  /** Insertion adds a blank review for every requested pair and touches nothing else. */
  lemma {:induction false} InsertedRows(reviews: map<Slot, Review>, org: OrgId, cycle: CycleId, xs: seq<Assignment>,
                                        k: Slot)
    requires NoPeers(xs)
    ensures var after := Inserted(reviews, org, cycle, xs);
            if k.cycle == cycle && Wanted(xs, k.about, k.author) then k in after && IsInserted(after[k], org)
            else (k in after <==> k in reviews) && (k in reviews ==> after[k] == reviews[k])
  {
    if xs != [] {
      var front, x := xs[..|xs| - 1], xs[|xs| - 1];
      InsertedRows(reviews, org, cycle, front, k);
      assert xs == front + [x];
      WantedConcat(front, [x], k.about, k.author);
      assert [x][0] == x;
      if k == Slot(cycle, x.about, x.author) { assert Wanted([x], k.about, k.author); }
    }
  }

  lemma {:induction false} InsertedKinds(reviews: map<Slot, Review>, org: OrgId, cycle: CycleId, xs: seq<Assignment>,
                                         i: nat)
    requires NoRepeats(xs) && i < |xs|
    ensures var k := Slot(cycle, xs[i].about, xs[i].author);
            k in Inserted(reviews, org, cycle, xs) && Inserted(reviews, org, cycle, xs)[k].kind == xs[i].kind
  {
    if i < |xs| - 1 {
      var front, x := xs[..|xs| - 1], xs[|xs| - 1];
      InsertedKinds(reviews, org, cycle, front, i);
      assert front[i] == xs[i];
    }
  }
}
