/** What the reader of Utmp delivers, loses and adds. */
module UtmpProofs {
  import opened Utmp

  // ----- The two listings -----

  /** utmp_next(1) gives exactly the whole records, in order. */
  lemma {:induction false} EverythingIsTheFile(records: seq<Record>, p: nat)
    requires p <= |records|
    ensures Walk(records, Everything, p) == records[p..]
    decreases |records| - p
  {
    if p == |records| {
    } else {
      EverythingIsTheFile(records, p + 1);
    }
  }

  lemma {:induction false} UsersAppend(a: seq<Record>, b: seq<Record>)
    ensures Users(a + b) == Users(a) + Users(b)
  {
    if a == [] {
      assert a + b == b;
    } else {
      var first := if IsUser(a[0]) then [a[0]] else [];
      assert (a + b)[0] == a[0] && (a + b)[1..] == a[1..] + b;
      UsersAppend(a[1..], b);
      assert first + (Users(a[1..]) + Users(b)) == (first + Users(a[1..])) + Users(b);
    }
  }

  lemma UsersOne(r: Record)
    ensures Users([r]) == if r.utType == 7 then [r] else []
  {
    assert [r][1..] == [];
  }

  /** utmp_next(0) loses, repeats and reorders no user. */
  lemma {:induction false} NoUserIsLost(records: seq<Record>, p: nat)
    requires p <= |records|
    ensures Users(Walk(records, UsersOnly, p)) == Users(records[p..])
    decreases |records| - p
  {
    if p < |records| {
      assert records[p..] == [records[p]] + records[p + 1..];
      NoUserIsLost(records, p + 1);
      UsersOne(records[p]);
      UsersAppend([records[p]], records[p + 1..]);
      UsersAppend([records[p]], Walk(records, UsersOnly, p + 1));
      if !Delivered(records, UsersOnly, p) {
        assert Walk(records, UsersOnly, p) == Walk(records, UsersOnly, p + 1);
      }
    } else {
      assert records[p..] == [];
    }
  }

  lemma {:induction false} UsersAreUsers(records: seq<Record>)
    ensures forall r :: r in Users(records) ==> IsUser(r)
  {
    if records == [] {
    } else {
      UsersAreUsers(records[1..]);
    }
  }

  lemma {:induction false} WalkIfBlocksEndInUsers(records: seq<Record>, p: nat)
    requires p <= |records|
    requires forall i :: p <= i < |records| && EndsBlock(records, i) ==> IsUser(records[i])
    ensures Walk(records, UsersOnly, p) == Users(records[p..])
    decreases |records| - p
  {
    if p == |records| {
    } else {
      assert records[p..][1..] == records[p + 1..];
      WalkIfBlocksEndInUsers(records, p + 1);
    }
  }

  lemma {:induction false} DeliveredIsInWalk(records: seq<Record>, mode: Mode, p: nat, i: nat)
    requires p <= i < |records| && Delivered(records, mode, i)
    ensures records[i] in Walk(records, mode, p)
    decreases i - p
  {
    if p < i {
      DeliveredIsInWalk(records, mode, p + 1, i);
      assert records[i] in Walk(records, mode, p + 1);
    }
  }

  /** The listing of users is clean exactly when every block of sixteen, and the file, ends in a user. */
  lemma OnlyUsersIff(records: seq<Record>)
    ensures Walk(records, UsersOnly, 0) == Users(records) <==>
            forall i :: 0 <= i < |records| && ((i + 1) % 16 == 0 || i + 1 == |records|) ==> records[i].utType == 7
  {
    assert forall i: nat :: EndsBlock(records, i) <==> (i + 1) % 16 == 0 || i + 1 == |records|;
    assert records[0..] == records;
    if forall i :: 0 <= i < |records| && EndsBlock(records, i) ==> IsUser(records[i]) {
      WalkIfBlocksEndInUsers(records, 0);
    } else {
      var i :| 0 <= i < |records| && EndsBlock(records, i) && !IsUser(records[i]);
      DeliveredIsInWalk(records, UsersOnly, 0, i);
      UsersAreUsers(records);
    }
  }

  /** A file of one record that is not a user's: the listing of users shows it. */
  lemma StrangerIsListed(r: Record)
    requires r.utType != 7
    ensures Walk([r], UsersOnly, 0) == [r] && Users([r]) == []
  {
    UsersOne(r);
    assert Walk([r], UsersOnly, 1) == [];
  }
}
