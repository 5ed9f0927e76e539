/**
 Where the state of the remote stores comes from, over every run: which call set each
 idempotency mark, which call wrote each history row, and what had happened before.
 */
module Provenance {
  import opened Wrappers
  import opened Models
  import opened Stores
  import opened Protocol
  import opened Safety

  // ----- marks ---------------------------------------------------------------------------------

  /** Call j passed validation and the check for this id and created its key, now expiring at x. */
  predicate SetBy(cfg: Config, g: Shared, j: nat, id: string, x: Expiry) {
    && j < |g.calls| && g.calls[j].markSet && g.calls[j].passed.Some? && g.calls[j].event.Some?
    && g.calls[j].event.value.paymentId == id
    && g.calls[j].passed.value <= g.now
    && x == ExpiryOf(cfg.markTtl, g.calls[j].passed.value)
  }

  /** Call j set a mark for this id that was live at time t, and if it is of call k's partition it is the earlier one. */
  predicate Justifies(cfg: Config, calls: seq<Call>, j: nat, k: nat, id: string, t: nat)
    requires k < |calls|
  {
    && j < |calls| && (calls[j].msg.partition == calls[k].msg.partition ==> j < k)
    && calls[j].markSet && calls[j].passed.Some? && calls[j].event.Some?
    && calls[j].event.value.paymentId == id
    && calls[j].passed.value <= t && Live(ExpiryOf(cfg.markTtl, calls[j].passed.value), t)
  }

  ghost predicate HitJustified(cfg: Config, calls: seq<Call>, k: nat)
    requires k < |calls|
  {
    calls[k].hit.Some? ==>
      && calls[k].event.Some?
      && exists j :: Justifies(cfg, calls, j, k, calls[k].event.value.paymentId, calls[k].hit.value)
  }

  ghost predicate MarksExplained(cfg: Config, g: Shared) {
    && (forall id :: id in g.redis.marks ==> exists j :: SetBy(cfg, g, j, id, g.redis.marks[id]))
    && (forall k :: 0 <= k < |g.calls| ==> HitJustified(cfg, g.calls, k))
  }

  lemma MarksStayExplained(cfg: Config, g: Shared, g': Shared)
    requires MarksExplained(cfg, g) && AllExtend(g.calls, g'.calls) && g.now <= g'.now
    ensures forall id :: id in g.redis.marks ==> exists j :: SetBy(cfg, g', j, id, g.redis.marks[id])
    ensures forall k :: 0 <= k < |g.calls| && g'.calls[k].hit == g.calls[k].hit ==> HitJustified(cfg, g'.calls, k)
  {
    forall id | id in g.redis.marks
      ensures exists j :: SetBy(cfg, g', j, id, g.redis.marks[id])
    {
      var j :| SetBy(cfg, g, j, id, g.redis.marks[id]);
      assert SetBy(cfg, g', j, id, g.redis.marks[id]);
    }
    forall k | 0 <= k < |g.calls| && g'.calls[k].hit == g.calls[k].hit && g'.calls[k].hit.Some?
      ensures HitJustified(cfg, g'.calls, k)
    {
      assert HitJustified(cfg, g.calls, k);
      var id := g.calls[k].event.value.paymentId;
      var j :| Justifies(cfg, g.calls, j, k, id, g.calls[k].hit.value);
      assert Justifies(cfg, g'.calls, j, k, id, g.calls[k].hit.value);
    }
  }

  predicate Moved(cfg: Config, g: Shared, c: Claim, g': Shared, c': Claim) {
    && c.Busy? && ClaimFits(cfg, g, c) && Sound(cfg, g.calls[c.call])
    && KeepsRecord(cfg, g, c, g', c') && Effects(cfg, g, c, g', c')
  }

  /** A check that is answered "exists" sees the mark of an earlier call, if of its own partition. */
  lemma HitMove(cfg: Config, g: Shared, c: Claim, g': Shared, c': Claim)
    requires Moved(cfg, g, c, g', c') && Newest(g, c) && MarksExplained(cfg, g)
    requires g'.calls[c.call].hit != g.calls[c.call].hit
    ensures HitJustified(cfg, g'.calls, c.call)
  {
    var id := c.at.event.paymentId;
    var j: nat :| SetBy(cfg, g, j, id, g.redis.marks[id]);
    assert j != c.call && g'.calls[j] == g.calls[j];
    assert Justifies(cfg, g'.calls, j, c.call, id, g.now);
  }

  /** A mark that was just created has its creator. */
  lemma NewMarkMove(cfg: Config, g: Shared, c: Claim, g': Shared, c': Claim)
    requires Moved(cfg, g, c, g', c')
    requires g'.calls[c.call].markSet && !g.calls[c.call].markSet
    ensures var id := c.at.event.paymentId; id in g'.redis.marks && SetBy(cfg, g', c.call, id, g'.redis.marks[id])
  {
  }

  /** One call's hit and the mark of one id may be new. */
  lemma MarksCombine(cfg: Config, g: Shared, g': Shared, k: nat, id: string)
    requires MarksExplained(cfg, g) && AllExtend(g.calls, g'.calls) && g.now <= g'.now
    requires k < |g.calls| == |g'.calls| && HitJustified(cfg, g'.calls, k)
    requires forall i :: 0 <= i < |g.calls| && i != k ==> g'.calls[i] == g.calls[i]
    requires g'.redis.marks == g.redis.marks
             || (id in g'.redis.marks && SetBy(cfg, g', k, id, g'.redis.marks[id])
                 && g'.redis.marks == g.redis.marks[id := g'.redis.marks[id]])
    ensures MarksExplained(cfg, g')
  {
    MarksStayExplained(cfg, g, g');
  }

  lemma MarksMove(cfg: Config, g: Shared, c: Claim, g': Shared, c': Claim)
    requires Moved(cfg, g, c, g', c') && Newest(g, c) && MarksExplained(cfg, g) && AllExtend(g.calls, g'.calls)
    ensures MarksExplained(cfg, g')
  {
    var id := if c.at.Marking? then c.at.event.paymentId else "";
    if g'.calls[c.call].markSet && !g.calls[c.call].markSet {
      NewMarkMove(cfg, g, c, g', c');
    }
    if g'.calls[c.call].hit != g.calls[c.call].hit {
      HitMove(cfg, g, c, g', c');
    } else {
      MarksStayExplained(cfg, g, g');
    }
    MarksCombine(cfg, g, g', c.call, id);
  }

  lemma MarksStep(cfg: Config, s: System, ev: Event)
    requires Possible(cfg, s, ev) && Control(cfg, s) && MarksExplained(cfg, s.g)
    ensures MarksExplained(cfg, Happen(cfg, s, ev).g)
  {
    var s' := Happen(cfg, s, ev);
    ControlStep(cfg, s, ev);
    if ev.Move? && s.claims[ev.p].Busy? {
      var (g1, c1) := Step(cfg, s.g, s.claims[ev.p], ev.reply);
      ClaimStep(cfg, s.g, s.claims[ev.p], ev.reply);
      MarksMove(cfg, s.g, s.claims[ev.p], g1, c1);
    } else {
      MarksStayExplained(cfg, s.g, s'.g);
    }
  }

  lemma {:induction false} MarksAlways(cfg: Config, s: System, run: seq<Event>)
    requires Init(s) && Exec(cfg, s, run).Some?
    ensures MarksExplained(cfg, Exec(cfg, s, run).value.g)
  {
    if run != [] {
      var m := Exec(cfg, s, run[..|run| - 1]).value;
      MarksAlways(cfg, s, run[..|run| - 1]);
      ControlAlways(cfg, s, run[..|run| - 1]);
      MarksStep(cfg, m, run[|run| - 1]);
    }
  }

  /**
   No message is skipped without cause. In every reachable state, whatever failed and crashed: a
   call that skipped its message did so because an earlier call for the same payment id, which had
   passed validation and the check itself, had set a mark less than one time to live before.
   */
  lemma SkipHasCause(cfg: Config, s: System, run: seq<Event>, t: System, k: nat) returns (j: nat)
    requires Reaches(cfg, s, run, t) && k < |t.g.calls| && t.g.calls[k].hit.Some?
    ensures var calls := t.g.calls;
            && j < |calls|
            && calls[j].acquired && calls[j].event.Some? && calls[k].event.Some?
            && calls[j].event.value.paymentId == calls[k].event.value.paymentId
            && calls[j].passed.Some? && calls[j].hit.None? && calls[j].markSet
            && calls[j].passed.value <= calls[k].hit.value
            && (calls[j].msg.partition == calls[k].msg.partition ==> j < k)
            && (cfg.markTtl == 0 || calls[k].hit.value < calls[j].passed.value + cfg.markTtl)
  {
    MarksAlways(cfg, s, run);
    ControlAlways(cfg, s, run);
    var calls := t.g.calls;
    assert HitJustified(cfg, calls, k);
    j :| Justifies(cfg, calls, j, k, calls[k].event.value.paymentId, calls[k].hit.value);
    assert Sound(cfg, calls[j]);
  }

  // ----- history rows --------------------------------------------------------------------------

  /**
   Call j wrote this item, with its own trace and the clock's reading at that moment, after its mark
   request and in an attempt whose status write had been acknowledged.
   */
  predicate WroteRow(g: Shared, j: nat, key: RowKey, item: PaymentHistory) {
    && j < |g.calls| && g.calls[j].event == Some(item.event) && KeyOf(item.event) == key
    && g.calls[j].rowPut.Some?
    && g.calls[j].rowPut.value.at == item.processedAt <= g.now && g.calls[j].trace == item.traceId
    && g.calls[j].passed.Some? && g.calls[j].passed.value <= item.processedAt
    && g.calls[j].rowPut.value.afterStatus
  }

  ghost predicate RowExplained(rows0: Rows, g: Shared, key: RowKey)
    requires key in g.rows
  {
    (key in rows0 && g.rows[key] == rows0[key]) || exists j :: WroteRow(g, j, key, g.rows[key])
  }

  /** What a record says was written is there, and its mark request is not in the future. */
  predicate RecordedRowExists(g: Shared, call: Call) {
    && (call.passed.Some? ==> call.passed.value <= g.now)
    && (call.recorded && call.event.Some? ==> KeyOf(call.event.value) in g.rows)
  }

  ghost predicate RowsExplained(rows0: Rows, g: Shared) {
    && (forall key :: key in rows0 ==> key in g.rows && g.rows[key] == rows0[key])
    && (forall key :: key in g.rows ==> RowExplained(rows0, g, key))
    && (forall k :: 0 <= k < |g.calls| ==> RecordedRowExists(g, g.calls[k]))
    && (forall i :: 0 <= i < |g.bus| ==> KeyOf(g.bus[i]) in g.rows)
  }

  /** Rows are only ever added. */
  predicate Grown(a: Rows, b: Rows) {
    forall key :: key in a ==> key in b && b[key] == a[key]
  }

  lemma RowStaysExplained(cfg: Config, rows0: Rows, g: Shared, c: Claim, g': Shared, c': Claim, key: RowKey)
    requires Moved(cfg, g, c, g', c') && key in g'.rows && RecordedRowExists(g, g.calls[c.call])
    requires key in g.rows ==> RowExplained(rows0, g, key)
    ensures RowExplained(rows0, g', key)
  {
    if key !in g.rows {
      assert WroteRow(g', c.call, key, g'.rows[key]);
    } else if !(key in rows0 && g.rows[key] == rows0[key]) {
      var j: nat :| WroteRow(g, j, key, g.rows[key]);
      assert WroteRow(g', j, key, g'.rows[key]);
    }
  }

  lemma RowsGrow(cfg: Config, g: Shared, c: Claim, g': Shared, c': Claim)
    requires Moved(cfg, g, c, g', c')
    ensures Grown(g.rows, g'.rows) && |g'.calls| == |g.calls|
  {
  }

  lemma RecordStays(cfg: Config, g: Shared, c: Claim, g': Shared, c': Claim, k: nat)
    requires Moved(cfg, g, c, g', c') && k < |g.calls| && RecordedRowExists(g, g.calls[k])
    ensures RecordedRowExists(g', g'.calls[k])
  {
  }

  lemma BusStays(cfg: Config, g: Shared, c: Claim, g': Shared, c': Claim)
    requires Moved(cfg, g, c, g', c') && RecordedRowExists(g, g.calls[c.call])
    requires forall i :: 0 <= i < |g.bus| ==> KeyOf(g.bus[i]) in g.rows
    ensures forall i :: 0 <= i < |g'.bus| ==> KeyOf(g'.bus[i]) in g'.rows
  {
  }

  lemma RowsMove(cfg: Config, rows0: Rows, g: Shared, c: Claim, g': Shared, c': Claim)
    requires Moved(cfg, g, c, g', c') && RowsExplained(rows0, g)
    ensures RowsExplained(rows0, g')
    ensures Grown(g.rows, g'.rows)
  {
    assert RecordedRowExists(g, g.calls[c.call]);
    RowsGrow(cfg, g, c, g', c');
    BusStays(cfg, g, c, g', c');
    forall key | key in g'.rows
      ensures RowExplained(rows0, g', key)
    {
      RowStaysExplained(cfg, rows0, g, c, g', c', key);
    }
    forall k | 0 <= k < |g'.calls|
      ensures RecordedRowExists(g', g'.calls[k])
    {
      RecordStays(cfg, g, c, g', c', k);
    }
    RowsCombine(rows0, g, g');
  }

  lemma RowsCombine(rows0: Rows, g: Shared, g': Shared)
    requires RowsExplained(rows0, g) && Grown(g.rows, g'.rows)
    requires forall key :: key in g'.rows ==> RowExplained(rows0, g', key)
    requires forall k :: 0 <= k < |g'.calls| ==> RecordedRowExists(g', g'.calls[k])
    requires forall i :: 0 <= i < |g'.bus| ==> KeyOf(g'.bus[i]) in g'.rows
    ensures RowsExplained(rows0, g')
  {
  }

  lemma RowsStep(cfg: Config, rows0: Rows, s: System, ev: Event)
    requires Possible(cfg, s, ev) && Control(cfg, s) && RowsExplained(rows0, s.g)
    ensures RowsExplained(rows0, Happen(cfg, s, ev).g)
    ensures Grown(s.g.rows, Happen(cfg, s, ev).g.rows)
  {
    var g' := Happen(cfg, s, ev).g;
    if ev.Move? && s.claims[ev.p].Busy? {
      var c := s.claims[ev.p];
      var (g1, c1) := Step(cfg, s.g, c, ev.reply);
      ClaimStep(cfg, s.g, c, ev.reply);
      RowsMove(cfg, rows0, s.g, c, g1, c1);
    } else {
      assert g'.rows == s.g.rows && g'.bus == s.g.bus;
      forall k | 0 <= k < |g'.calls|
        ensures RecordedRowExists(g', g'.calls[k])
      {
        assert k < |s.g.calls| ==> RecordedRowExists(s.g, s.g.calls[k]);
      }
      forall key | key in g'.rows
        ensures RowExplained(rows0, g', key)
      {
        assert RowExplained(rows0, s.g, key);
        if !(key in rows0 && s.g.rows[key] == rows0[key]) {
          var j :| WroteRow(s.g, j, key, s.g.rows[key]);
          assert WroteRow(g', j, key, g'.rows[key]);
        }
      }
    }
  }

  lemma {:induction false} RowsAlways(cfg: Config, s: System, run: seq<Event>)
    requires Init(s) && Exec(cfg, s, run).Some?
    ensures RowsExplained(s.g.rows, Exec(cfg, s, run).value.g)
  {
    if run != [] {
      var m := Exec(cfg, s, run[..|run| - 1]).value;
      RowsAlways(cfg, s, run[..|run| - 1]);
      ControlAlways(cfg, s, run[..|run| - 1]);
      RowsStep(cfg, s.g.rows, m, run[|run| - 1]);
    }
  }

  /**
   History is append-only and the first writer wins: between any two moments of a run, whichever
   claims write and whatever fails, a row that is there stays as it is.
   */
  lemma {:induction false} HistoryIsAppendOnly(cfg: Config, s: System, run: seq<Event>, i: nat)
    requires Init(s) && Exec(cfg, s, run).Some? && i <= |run|
    ensures Exec(cfg, s, run[..i]).Some?
    ensures Grown(Exec(cfg, s, run[..i]).value.g.rows, Exec(cfg, s, run).value.g.rows)
  {
    if i == |run| {
      assert run[..i] == run;
    } else {
      var init := run[..|run| - 1];
      assert init[..i] == run[..i];
      HistoryIsAppendOnly(cfg, s, init, i);
      RowsAlways(cfg, s, init);
      ControlAlways(cfg, s, init);
      RowsStep(cfg, s.g.rows, Exec(cfg, s, init).value, run[|run| - 1]);
    }
  }

  /**
   Every row that was not there at the start was put by a call that had validated exactly that
   event and passed the check, after the status write of the same attempt had been acknowledged; it
   holds that call's trace and the clock's reading at the put.
   */
  lemma RowHasWriter(cfg: Config, s: System, run: seq<Event>, t: System, key: RowKey) returns (j: nat)
    requires Reaches(cfg, s, run, t) && key in t.g.rows && key !in s.g.rows
    ensures WroteRow(t.g, j, key, t.g.rows[key])
    ensures t.g.calls[j].acquired && t.g.calls[j].passed.Some? && t.g.calls[j].hit.None?
  {
    RowsAlways(cfg, s, run);
    ControlAlways(cfg, s, run);
    assert RowExplained(s.g.rows, t.g, key);
    j :| WroteRow(t.g, j, key, t.g.rows[key]);
    assert Sound(cfg, t.g.calls[j]);
  }

  /**
   Persist before publish: in every reachable state the row of every event the consumer has
   published is in the table, and so is the row of every completed call.
   */
  lemma PublishedIsPersisted(cfg: Config, s: System, run: seq<Event>, t: System, e: PaymentEvent)
    requires Reaches(cfg, s, run, t)
    requires e in t.g.bus || exists k :: 0 <= k < |t.g.calls| && t.g.calls[k].written && t.g.calls[k].event == Some(e)
    ensures KeyOf(e) in t.g.rows
  {
    RowsAlways(cfg, s, run);
    ControlAlways(cfg, s, run);
    if e !in t.g.bus {
      var k :| 0 <= k < |t.g.calls| && t.g.calls[k].written && t.g.calls[k].event == Some(e);
      assert Sound(cfg, t.g.calls[k]) && RecordedRowExists(t.g, t.g.calls[k]);
    }
  }
}
