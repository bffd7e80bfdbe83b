// The cursor table of src/cursor.rs, and the bootstrap arithmetic src/inbound.rs
// applies to it. The table holds one row per account.
module Cursor {
  import opened Wrappers

  datatype UidCursor = UidCursor(uidValidity: U32, lastUid: U32, updatedAt: int)

  // The row reset_if_validity_changed leaves behind.
  function ResetRow(row: Option<UidCursor>, validity: U32, now: int): UidCursor {
    if row.Some? && row.value.uidValidity == validity then row.value
    else UidCursor(validity, 0, now)
  }

  datatype StoreError = StatementFailed

  // The SELECT works, and so does the upsert if there is one.
  predicate Resets(row: Option<UidCursor>, validity: U32, read: bool, written: bool) {
    read && ((row.Some? && row.value.uidValidity == validity) || written)
  }

  class CursorStore {
    var rows: map<string, UidCursor>

    constructor ()
      ensures rows == map[]
    {
      rows := map[];
    }

    ghost function Row(account: string): Option<UidCursor>
      reads this
    {
      if account in rows then Some(rows[account]) else None
    }

    method Get(account: string) returns (row: Option<UidCursor>)
      ensures row == Row(account)
    {
      if account in rows {
        return Some(rows[account]);
      }
      return None;
    }

    method Set(account: string, c: UidCursor)
      modifies this
      ensures rows == old(rows)[account := c]
    {
      rows := rows[account := c];
    }

    // A row for the wrong UIDVALIDITY, or no row, becomes a fresh one at UID 0. Either
    // statement may fail.
    method ResetIfValidityChanged(account: string, validity: U32, now: int, read: bool, written: bool)
      returns (r: Result<UidCursor, StoreError>)
      modifies this
      ensures r == if Resets(old(Row(account)), validity, read, written)
                   then Ok(ResetRow(old(Row(account)), validity, now)) else Err(StatementFailed)
      ensures r.Ok? ==> r.value.uidValidity == validity && rows == old(rows)[account := r.value]
      ensures r.Err? ==> rows == old(rows)
      // A row of the same UIDVALIDITY stays as it is and costs no upsert.
      ensures account in old(rows) && old(rows)[account].uidValidity == validity ==>
        (r.Ok? <==> read) && rows == old(rows)
      ensures !(account in old(rows) && old(rows)[account].uidValidity == validity) ==>
        (r.Ok? <==> read && written) && (r.Ok? ==> r.value == UidCursor(validity, 0, now))
    {
      if !read {
        return Err(StatementFailed);
      }
      var existing := Get(account);
      if existing.Some? && existing.value.uidValidity == validity {
        assert rows == rows[account := existing.value];
        return Ok(existing.value);
      }
      if !written {
        return Err(StatementFailed);
      }
      var c := UidCursor(validity, 0, now);
      Set(account, c);
      return Ok(c);
    }
  }

  // --- bootstrap_limit ---

  // limit + 1 in a release build: u32 addition wraps.
  function LimitPlusOne(limit: U32): U32 {
    if limit == U32_MAX then 0 else limit + 1
  }

  predicate SkipsHistory(lastUid: U32, limit: Option<U32>, uidNext: U32) {
    lastUid == 0 && limit.Some? && uidNext > LimitPlusOne(limit.value)
  }

  function StartUid(lastUid: U32, limit: Option<U32>, uidNext: U32): U32 {
    if SkipsHistory(lastUid, limit, uidNext) then uidNext - LimitPlusOne(limit.value) else lastUid
  }

  // Where a connect starts. A positive cursor of this UIDVALIDITY is resumed. Any other
  // connect starts at 0 unless a limit is configured and more UIDs than that are taken:
  // then the newest `limit` of them are left. The largest limit leaves none.
  lemma StartExactly(row: Option<UidCursor>, validity: U32, now: int, limit: Option<U32>, uidNext: U32)
    ensures var resumed := if row.Some? && row.value.uidValidity == validity then row.value.lastUid else 0;
      StartUid(ResetRow(row, validity, now).lastUid, limit, uidNext)
      == if resumed > 0 || limit.None? then resumed
         else if limit.value == U32_MAX then uidNext
         else if uidNext > limit.value + 1 then uidNext - limit.value - 1
         else 0
  {
  }

  // The start that is persisted is positive, so no later connect takes the
  // cursor for a fresh one, and it leaves exactly `limit` UIDs below uidNext.
  // At the largest limit the addition wraps: then not even the next message to
  // arrive is left.
  lemma BootstrapLeavesLimit(limit: U32, uidNext: U32)
    requires SkipsHistory(0, Some(limit), uidNext)
    ensures var start := StartUid(0, Some(limit), uidNext);
      start > 0
      && !SkipsHistory(start, Some(limit), uidNext)
      && (uidNext - 1 - start == limit <==> limit < U32_MAX)
      && (limit == U32_MAX ==> start == uidNext)
  {
  }
}
