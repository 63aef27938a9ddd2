/** The in-app notification endpoints: which permission checks guard them,
    how many notifications a user has, and marking a user's notifications as
    read. The notification table is a field of `NotificationTable`, updated
    in place. */
module Notifications {
  import opened Common

  datatype Status = New | Read

  datatype Notification = Notification(id: nat, userId: nat, status: Status)

  datatype Permission = UserIsAuthenticated | BillingPlanPermission | ExpiredSubscriptionPermission

  /** Python raising TypeError for `None in 'destroy'`. */
  datatype TypeError = TypeError

  // ---------------------------------------------------------------------
  // Permissions

  predicate IsPrefixOf(a: string, b: string) {
    |a| <= |b| && b[..|a|] == a
  }

  /** Python's `needle in hay` on two strings: `needle` occurs in `hay`. */
  function IsSubstring(needle: string, hay: string): bool
    decreases |hay|
  {
    IsPrefixOf(needle, hay) || (|hay| > 0 && IsSubstring(needle, hay[1..]))
  }

  /** `needle` is the slice of `hay` that starts at position `i`. */
  ghost predicate OccursAt(needle: string, hay: string, i: int) {
    0 <= i <= |hay| - |needle| && hay[i..i + |needle|] == needle
  }

  /** `needle` is the slice of `hay` that starts at some position. */
  ghost predicate OccursIn(needle: string, hay: string) {
    exists i :: OccursAt(needle, hay, i)
  }

  /** The substring search agrees with the positional definition. */
  lemma {:induction false} IsSubstringIff(needle: string, hay: string)
    ensures IsSubstring(needle, hay) <==> OccursIn(needle, hay)
    decreases |hay|
  {
    if IsPrefixOf(needle, hay) {
      assert OccursAt(needle, hay, 0);
    } else if |hay| > 0 {
      IsSubstringIff(needle, hay[1..]);
      if OccursIn(needle, hay[1..]) {
        var i :| OccursAt(needle, hay[1..], i);
        assert hay[1..][i..i + |needle|] == hay[i + 1..i + 1 + |needle|];
        assert OccursAt(needle, hay, i + 1);
      }
      if OccursIn(needle, hay) {
        var i :| OccursAt(needle, hay, i);
        if i > 0 {
          assert hay[1..][i - 1..i - 1 + |needle|] == hay[i..i + |needle|];
          assert OccursAt(needle, hay[1..], i - 1);
        }
      }
    }
  }

  const AllChecks: seq<Permission> := [UserIsAuthenticated, BillingPlanPermission, ExpiredSubscriptionPermission]

  /** The viewset's permission choice as written: `self.action in 'destroy'`
      tests whether the action name occurs inside the word "destroy", and a
      missing action (`None`) makes the test raise. */
  function PermissionsAsWritten(action: Option<string>): (r: Result<seq<Permission>, TypeError>)
    ensures action.None? <==> r.Err?
    ensures action.Some? ==>
              (r == Ok(AllChecks) <==> OccursIn(action.value, "destroy")) &&
              (r == Ok([UserIsAuthenticated]) <==> !OccursIn(action.value, "destroy"))
  {
    match action
    case None => Err(TypeError)
    case Some(a) =>
      IsSubstringIff(a, "destroy");
      if IsSubstring(a, "destroy") then Ok(AllChecks) else Ok([UserIsAuthenticated])
  }

  /** The permission choice as intended: the three checks for `destroy`,
      authentication alone for every other action, including none. */
  function Permissions(action: Option<string>): (r: seq<Permission>)
    ensures r == AllChecks <==> action == Some("destroy")
    ensures r != AllChecks ==> r == [UserIsAuthenticated]
  {
    if action == Some("destroy") then AllChecks else [UserIsAuthenticated]
  }

  /** The written choice and the intended one agree on every action name that
      is "destroy" or does not occur inside it (all the viewset's actions);
      they part on `None`, and on names such as "" or "roy". */
  lemma PermissionsAsWrittenDiffers(action: string)
    ensures action == "destroy" || !OccursIn(action, "destroy") ==>
              PermissionsAsWritten(Some(action)) == Ok(Permissions(Some(action)))
    ensures PermissionsAsWritten(None).Err?
    ensures PermissionsAsWritten(Some("")) == Ok(AllChecks) && Permissions(Some("")) == [UserIsAuthenticated]
  {
    if action == "destroy" {
      assert OccursAt(action, "destroy", 0);
    }
    assert OccursAt("", "destroy", 0);
  }

  /** The viewset's actions get the expected checks from the written test. */
  lemma PermissionsOfViewsetActions()
    ensures PermissionsAsWritten(Some("destroy")) == Ok(AllChecks)
    ensures PermissionsAsWritten(Some("list")) == Ok([UserIsAuthenticated])
    ensures PermissionsAsWritten(Some("count")) == Ok([UserIsAuthenticated])
  {
    assert OccursAt("destroy", "destroy", 0);
    forall i ensures !OccursAt("list", "destroy", i) {
      if 0 <= i <= 3 {
        assert "destroy"[i..i + 4][0] == "destroy"[i];
        assert "destroy"[i..i + 4][1] == "destroy"[i + 1];
      }
    }
    forall i ensures !OccursAt("count", "destroy", i) {
      if 0 <= i <= 2 {
        assert "destroy"[i..i + 5][0] == "destroy"[i];
      }
    }
  }

  // ---------------------------------------------------------------------
  // Counting and marking as read

  /** The viewset's queryset: the requesting user's notifications. */
  function UserNotifications(rows: seq<Notification>, userId: nat): seq<Notification> {
    Filter(rows, (n: Notification) => n.userId == userId)
  }

  /** The count action: the user's notifications that pass the request's
      filter `keep`. */
  function Count(rows: seq<Notification>, userId: nat, keep: Notification -> bool): (r: nat)
    ensures r <= |UserNotifications(rows, userId)|
  {
    |Filter(UserNotifications(rows, userId), keep)|
  }

  /** The count adds up row by row: a table split in two counts the sum of
      its parts, and a single row counts one exactly when it is the user's and
      passes the filter. */
  lemma {:induction false} CountAdditive(a: seq<Notification>, b: seq<Notification>, n: Notification,
                                         userId: nat, keep: Notification -> bool)
    ensures Count(a + b, userId, keep) == Count(a, userId, keep) + Count(b, userId, keep)
    ensures Count([n], userId, keep) == (if n.userId == userId && keep(n) then 1 else 0)
  {
    var mine := (x: Notification) => x.userId == userId;
    FilterConcat(a, b, mine);
    FilterConcat(Filter(a, mine), Filter(b, mine), keep);
    assert [n][1..] == [];
  }

  /** A notification the mark-read request updates: the user's own, not yet
      read, and listed in the request. */
  predicate Candidate(n: Notification, userId: nat, ids: seq<int>) {
    n.userId == userId && n.status != Read && n.id in ids
  }

  /** The table after a mark-read request; a missing or empty id list
      leaves it as it is. */
  function MarkedRead(rows: seq<Notification>, userId: nat, ids: Option<seq<int>>): (r: seq<Notification>)
    ensures |r| == |rows|
  {
    if ids.None? || |ids.value| == 0 then rows
    else
      seq(|rows|, i requires 0 <= i < |rows| =>
        if Candidate(rows[i], userId, ids.value) then rows[i].(status := Read) else rows[i])
  }

  /** Exactly the candidates become read; every other notification, and
      every notification's id and owner, is unchanged. */
  lemma MarkedReadExactly(rows: seq<Notification>, userId: nat, ids: Option<seq<int>>, i: nat)
    requires i < |rows|
    ensures var r := MarkedRead(rows, userId, ids);
            r[i].id == rows[i].id && r[i].userId == rows[i].userId &&
            (r[i] != rows[i] <==> ids.Some? && Candidate(rows[i], userId, ids.value)) &&
            (r[i].status == Read <==> rows[i].status == Read || (ids.Some? && Candidate(rows[i], userId, ids.value)))
  {
  }

  /** Another user's notifications are never touched. */
  lemma MarkedReadOnlyOwn(rows: seq<Notification>, userId: nat, ids: Option<seq<int>>)
    ensures var r := MarkedRead(rows, userId, ids);
            forall i :: 0 <= i < |rows| && rows[i].userId != userId ==> r[i] == rows[i]
  {
  }

  /** Repeating the same request leaves the same table. */
  lemma MarkedReadIdempotent(rows: seq<Notification>, userId: nat, ids: Option<seq<int>>)
    ensures MarkedRead(MarkedRead(rows, userId, ids), userId, ids) == MarkedRead(rows, userId, ids)
  {
  }

  /** Marking as read does not change how many notifications a user has under
      any filter that does not look at the read status. */
  lemma {:induction false} MarkedReadKeepsCount(rows: seq<Notification>, userId: nat, ids: seq<int>,
                                                  keep: Notification -> bool)
    requires forall n: Notification :: keep(n) == keep(n.(status := Read))
    ensures Count(MarkedRead(rows, userId, Some(ids)), userId, keep) == Count(rows, userId, keep)
  {
    if |ids| > 0 && |rows| > 0 {
      var r := MarkedRead(rows, userId, Some(ids));
      assert r == [r[0]] + MarkedRead(rows[1..], userId, Some(ids));
      assert rows == [rows[0]] + rows[1..];
      MarkedReadKeepsCount(rows[1..], userId, ids, keep);
      assert keep(r[0]) == keep(rows[0]);
      var mine := (n: Notification) => n.userId == userId;
      FilterConcat([r[0]], MarkedRead(rows[1..], userId, Some(ids)), mine);
      FilterConcat([rows[0]], rows[1..], mine);
      FilterConcat(Filter([r[0]], mine), Filter(MarkedRead(rows[1..], userId, Some(ids)), mine), keep);
      FilterConcat(Filter([rows[0]], mine), Filter(rows[1..], mine), keep);
    }
  }

  class NotificationTable {
    var rows: seq<Notification>

    constructor (rows: seq<Notification>)
      ensures this.rows == rows
    {
      this.rows := rows;
    }

    /** The mark-read request: when the request lists ids, the user's unread
        notifications with those ids become read. The response is OK in
        every case. */
    method MarkRead(userId: nat, ids: Option<seq<int>>) returns (ok: bool)
      modifies this
      ensures ok
      ensures rows == MarkedRead(old(rows), userId, ids)
    {
      if ids.Some? && |ids.value| > 0 {
        for i := 0 to |rows|
          invariant |rows| == |old(rows)|
          invariant forall j :: 0 <= j < i ==> rows[j] == MarkedRead(old(rows), userId, ids)[j]
          invariant forall j :: i <= j < |rows| ==> rows[j] == old(rows)[j]
        {
          if Candidate(rows[i], userId, ids.value) {
            rows := rows[i := rows[i].(status := Read)];
          }
        }
      }
      ok := true;
    }
  }
}
