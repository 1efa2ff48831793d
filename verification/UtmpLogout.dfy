/** logout_tty of MyWho/utmplib.c: the in-place update of the first record on a line. */
module UtmpLogout {
  import opened CStrings
  import opened Utmp
  import opened UtmpProofs

  /** strncmp(a, b, n) == 0; a missing character reads as NUL. */
  predicate StrnEqual(a: string, b: string, n: nat) {
    if n == 0 then true
    else
      var ca, cb := if a == [] then NUL else a[0], if b == [] then NUL else b[0];
      if ca != cb then false
      else if ca == NUL then true
      else StrnEqual(a[1..], b[1..], n - 1)
  }

  /** The text of a field of n characters: up to its first NUL. */
  function Field(s: string, n: nat): string {
    CString(if |s| <= n then s else s[..n])
  }

  lemma FieldTail(s: string, n: nat)
    requires s != [] && n > 0 && s[0] != NUL
    ensures Field(s, n) == [s[0]] + Field(s[1..], n - 1)
  {
    if |s| > n {
      assert s[..n][1..] == s[1..][..n - 1];
    }
  }

  lemma {:induction false} StrnEqualMeans(a: string, b: string, n: nat)
    ensures StrnEqual(a, b, n) <==> Field(a, n) == Field(b, n)
    decreases n
  {
    if n > 0 && a != [] && b != [] && a[0] == b[0] && a[0] != NUL {
      StrnEqualMeans(a[1..], b[1..], n - 1);
      FieldTail(a, n);
      FieldTail(b, n);
      assert Field(a, n)[1..] == Field(a[1..], n - 1);
      assert Field(b, n)[1..] == Field(b[1..], n - 1);
    }
  }

  predicate OnLine(r: Record, line: string) {
    Field(r.line, LINE_SIZE) == Field(line, LINE_SIZE)
  }

  /** A field holding a text, with a NUL behind it unless the text fills the field. */
  lemma FieldOfText(text: string, pad: string)
    requires '\0' !in text && (pad == [] || pad[0] == '\0')
    ensures Field(text + pad, 32) == if |text| <= 32 then text else text[..32]
  {
    var s := text + pad;
    if |text| <= 32 {
      var kept := if |s| <= 32 then pad else pad[..32 - |text|];
      assert (if |s| <= 32 then s else s[..32]) == text + kept;
      CStringOfText(text, kept);
    } else {
      assert s[..32] == text[..32] + [];
      CStringOfText(text[..32], []);
    }
  }

  /** A record is on a line exactly when the first 32 characters of the two names are the same. */
  lemma OnLineMeans(r: Record, name: string, pad: string, line: string)
    requires r.line == name + pad && '\0' !in name && (pad == [] || pad[0] == '\0')
    requires '\0' !in line
    ensures OnLine(r, line) <==>
            (if |name| <= 32 then name else name[..32]) == (if |line| <= 32 then line else line[..32])
  {
    FieldOfText(name, pad);
    FieldOfText(line, []);
    assert line + [] == line;
  }

  /** The first record on the line, or the end of the file. */
  function FirstOnLine(records: seq<Record>, line: string): (k: nat)
    ensures k <= |records| && (k < |records| ==> OnLine(records[k], line))
    ensures forall i :: 0 <= i < k ==> !OnLine(records[i], line)
  {
    if records == [] then 0
    else if OnLine(records[0], line) then 0
    else
      var k := FirstOnLine(records[1..], line);
      assert forall i :: 1 <= i < |records| ==> records[i] == records[1..][i - 1];
      1 + k
  }

  function LoggedOut(r: Record, now: int): Record {
    r.(utType := DEAD_PROCESS, tvSec := now)
  }

  /**
  logout_tty over the file. `now` is the result of time(), -1 when it fails; seeking back always works,
  but its result is the offset reached, which the program takes for failure when it is 0.
  */
  method LogoutTty(file: array<Record>, line: string, opens: bool, now: int, writes: bool, closes: bool)
    returns (retval: int)
    modifies file
    ensures var k := FirstOnLine(old(file[..]), line);
            var done := opens && 0 < k < file.Length && now != -1 && writes;
            && file[..] == (if done then old(file[..])[k := LoggedOut(old(file[k]), now)] else old(file[..]))
            && retval == (if done && closes then 0 else -1)
    ensures var k := FirstOnLine(old(file[..]), line);
            opens && 0 < k < file.Length && now != -1 && writes ==>
              && file[k].utType == 8 && file[k].tvSec == now && file[k].line == old(file[k].line)
              && file[k].user == old(file[k].user) && file[k].host == old(file[k].host)
    ensures opens && now != -1 && writes ==> file[..] == AfterLogout(old(file[..]), line, now)
  {
    retval := -1;
    if !opens {
      return -1;
    }
    var offset := 0;
    while offset / UTSIZE < file.Length
      invariant 0 <= offset && offset % UTSIZE == 0 && offset / UTSIZE <= file.Length
      invariant forall i :: 0 <= i < offset / UTSIZE ==> !OnLine(file[i], line)
      invariant retval == -1 && file[..] == old(file[..])
      decreases file.Length - offset / UTSIZE
    {
      var rec := file[offset / UTSIZE];
      offset := offset + UTSIZE;
      StrnEqualMeans(rec.line, line, LINE_SIZE);
      if StrnEqual(rec.line, line, LINE_SIZE) {
        FirstIs(file[..], line, offset / UTSIZE - 1);
        rec := rec.(utType := DEAD_PROCESS);
        rec := rec.(tvSec := now);
        if rec.tvSec != -1 {
          offset := offset - UTSIZE;  // lseek(fd, -len, SEEK_CUR)
          if offset != 0 {
            if writes {
              file[offset / UTSIZE] := rec;
              retval := 0;
            }
          }
        }
        break;
      }
    }
    if !closes {
      retval := -1;
    }
  }

  lemma FirstIs(records: seq<Record>, line: string, k: nat)
    requires k < |records| && OnLine(records[k], line) && forall i :: 0 <= i < k ==> !OnLine(records[i], line)
    ensures FirstOnLine(records, line) == k
  {
  }

  /** The file after a call in which time, seek, write and close succeed. */
  function AfterLogout(records: seq<Record>, line: string, now: int): seq<Record> {
    var k := FirstOnLine(records, line);
    if 0 < k < |records| then records[k := LoggedOut(records[k], now)] else records
  }

  lemma DeadIsNoUser(r: Record, now: int)
    ensures !IsUser(LoggedOut(r, now))
  {
  }

  lemma ReplaceOne(records: seq<Record>, k: nat, r: Record)
    requires k < |records|
    ensures records[k := r] == records[..k] + ([r] + records[k + 1..])
  {
  }

  lemma OneNonUser(front: seq<Record>, r: Record, back: seq<Record>)
    requires !IsUser(r)
    ensures Users(front + ([r] + back)) == Users(front) + Users(back)
  {
    UsersAppend(front, [r] + back);
    UsersAppend([r], back);
    UsersOne(r);
    assert Users([r] + back) == Users(back);
  }

  /** Putting a record that is no user's at k removes what stood there from the users. */
  lemma NonUserAt(records: seq<Record>, k: nat, r: Record)
    requires k < |records| && !IsUser(r)
    ensures Users(records[k := r]) == Users(records[..k]) + Users(records[k + 1..])
  {
    ReplaceOne(records, k, r);
    OneNonUser(records[..k], r, records[k + 1..]);
  }

  /** Exactly the first record on the line leaves the list of users, unless it is the first in the file. */
  lemma LogoutRemovesOneUser(records: seq<Record>, line: string, now: int)
    ensures var k := FirstOnLine(records, line);
            Users(AfterLogout(records, line, now)) ==
            if 0 < k < |records| then Users(records[..k]) + Users(records[k + 1..]) else Users(records)
  {
    var k := FirstOnLine(records, line);
    if 0 < k < |records| {
      DeadIsNoUser(records[k], now);
      NonUserAt(records, k, LoggedOut(records[k], now));
    }
  }

  /**
  What a caller wants is that nobody is on the line any more. It is so exactly when no record after the
  first one on the line has a user on it, and that first one is not a user's record at index 0.
  */
  lemma LineIsFreeIff(records: seq<Record>, line: string, now: int)
    ensures var k, after := FirstOnLine(records, line), AfterLogout(records, line, now);
            (forall i :: 0 <= i < |after| && OnLine(after[i], line) ==> !IsUser(after[i])) <==>
            && (forall i :: k < i < |records| && OnLine(records[i], line) ==> !IsUser(records[i]))
            && (k == 0 && k < |records| ==> !IsUser(records[k]))
  {
    var k, after := FirstOnLine(records, line), AfterLogout(records, line, now);
    assert forall i :: 0 <= i < |records| && i != k ==> after[i] == records[i];
    if 0 < k < |records| {
      assert !IsUser(after[k]);
    }
    if !(forall i :: k < i < |records| && OnLine(records[i], line) ==> !IsUser(records[i])) {
      var i :| k < i < |records| && OnLine(records[i], line) && IsUser(records[i]);
      assert after[i] == records[i];
    }
    if k == 0 && k < |records| && IsUser(records[k]) {
      assert after[k] == records[k];
    }
  }

  /** A user whose record is the first in the file stays logged in. */
  lemma FirstRecordStaysLoggedIn(r: Record, now: int)
    requires r.utType == 7
    ensures AfterLogout([r], r.line, now) == [r] && Users(AfterLogout([r], r.line, now)) == [r]
  {
    UsersOne(r);
  }

  /** A dead record before the live one on the same line takes the update; the user stays logged in. */
  lemma StaleRecordTakesUpdate(first: Record, stale: Record, live: Record, now: int)
    requires !OnLine(first, live.line) && OnLine(stale, live.line) && live.utType == 7
    ensures AfterLogout([first, stale, live], live.line, now) == [first, LoggedOut(stale, now), live]
    ensures live in Users(AfterLogout([first, stale, live], live.line, now))
  {
    var records, after := [first, stale, live], [first, LoggedOut(stale, now), live];
    FirstIs(records, live.line, 1);
    assert after == [first, LoggedOut(stale, now)] + [live];
    UsersAppend([first, LoggedOut(stale, now)], [live]);
    UsersOne(live);
  }
}
