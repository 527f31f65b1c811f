/**
 The repository methods as they run: loops over scanned rows, statement by statement.
 Each one is proved to leave the tables exactly as WatermarkStore says.
 */
module OdsRepository {
  import opened WatermarkStore

  ghost function DeliveryNums(rows: set<Delivery>): set<int> {
    set d | d in rows :: d.num
  }

  ghost function LossNums(rows: set<Loss>): set<int> {
    set l | l in rows :: l.num
  }

  class Repository {
    const lane: Lane
    const window: nat  // advanceWatermarkScanLimit
    var ods: set<Delivery>
    var ledger: set<Loss>
    var marks: map<Key, Mark>

    ghost function Tables(): Store
      reads this
    {
      Store(ods, ledger, marks)
    }

    constructor (lane: Lane, window: nat)
      ensures Tables() == EMPTY && this.lane == lane && this.window == window
    {
      this.lane, this.window := lane, window;
      ods, ledger, marks := {}, {}, map[];
    }

    /** One bounded scan of the event rows, merged row by row. */
    method ScanOds(key: Key, lo: int, hi: int) returns (present: set<int>)
      ensures present == Window(OdsSeqs(lane, ods, key), lo, hi)
    {
      present := {};
      var rows := set d | d in ods && Visible(lane, d.key, key) && lo < d.num <= hi;
      ghost var wanted := DeliveryNums(rows);
      while rows != {}
        invariant present + DeliveryNums(rows) == wanted
        decreases |rows|
      {
        var d :| d in rows;
        assert DeliveryNums(rows) == DeliveryNums(rows - {d}) + {d.num};
        present, rows := present + {d.num}, rows - {d};
      }
      assert present == wanted;
    }

    method ScanLedger(key: Key, lo: int, hi: int) returns (present: set<int>)
      ensures present == Window(LedgerSeqs(lane, ledger, key), lo, hi)
    {
      present := {};
      var rows := set l | l in ledger && Visible(lane, l.key, key) && lo < l.num <= hi;
      ghost var wanted := LossNums(rows);
      while rows != {}
        invariant present + LossNums(rows) == wanted
        decreases |rows|
      {
        var l :| l in rows;
        assert LossNums(rows) == LossNums(rows - {l}) + {l.num};
        present, rows := present + {l.num}, rows - {l};
      }
      assert present == wanted;
    }

    method PresentSeqSet(key: Key, lo: int, hi: int) returns (present: set<int>)
      ensures present == Window(Seen(lane, Tables(), key), lo, hi)
      ensures forall q :: q in present <==> lo < q <= hi && Present(lane, Tables(), key, q)
    {
      SeenIsPresent(lane, Tables(), key);
      var received := ScanOds(key, lo, hi);
      var ledgered := ScanLedger(key, lo, hi);
      present := received + ledgered;
    }

    method AdvanceWatermark(key: Key, clientAllocated: int) returns (contiguous: int)
      modifies this
      ensures Tables() == Advance(lane, window, old(Tables()), key, clientAllocated)
      ensures contiguous == Contiguous(Tables(), key)
    {
      var base := if key in marks then marks[key].contiguous else 0;
      contiguous := base;
      var hi := contiguous + window;
      var present := PresentSeqSet(key, contiguous, hi);
      while contiguous + 1 in present
        invariant base <= contiguous <= hi
        invariant Zip(present, contiguous, hi) == Zip(present, base, hi)
        decreases hi - contiguous
      {
        contiguous := contiguous + 1;
      }
      var maxSeen := MaxSeq(OdsSeqs(lane, ods, key));
      if key in marks {
        var m := marks[key];
        marks := marks[key := Mark(contiguous, Max(m.maxSeen, maxSeen), Max(m.issued, clientAllocated), m.floor)];
      } else {
        marks := marks[key := Mark(contiguous, maxSeen, clientAllocated, 0)];
      }
    }

    method EnumerateMissingSeqs(key: Key, lo: int, hi: int) returns (missing: seq<int>)
      ensures missing == Enumerate(lane, window, Tables(), key, lo, hi)
    {
      hide OdsSeqs, LedgerSeqs, Seen;
      missing := [];
      if hi <= lo {
        return;
      }
      var top := if hi - lo > window then lo + window else hi;
      var present := PresentSeqSet(key, lo, top);
      var q := lo + 1;
      while q <= top
        invariant lo + 1 <= q <= top + 1
        invariant missing == Missing(Seen(lane, Tables(), key), lo, q - 1)
      {
        if q !in present {
          missing := missing + [q];
        }
        q := q + 1;
      }
    }

    method RecordKnownLoss(key: Key, seqs: seq<int>) returns (contiguous: int)
      modifies this
      ensures Tables() == RecordLoss(lane, window, old(Tables()), key, seqs)
      ensures contiguous == Contiguous(Tables(), key)
    {
      ghost var s0 := Tables();
      for i := 0 to |seqs|
        invariant Tables() == s0.(ledger := s0.ledger + Losses(key, seqs[..i]))
      {
        assert seqs[..i + 1] == seqs[..i] + [seqs[i]];
        ledger := ledger + {Loss(key, seqs[i])};
      }
      assert seqs[..|seqs|] == seqs;
      contiguous := AdvanceWatermark(key, 0);
    }

    method ApplyStreamFloor(key: Key, floor: int) returns (answer: Answer)
      modifies this
      ensures floor <= 0 ==> answer == Refused && Tables() == old(Tables())
      ensures floor > 0 ==> answer.Applied? && (Tables(), answer.changed) == ApplyFloor(old(Tables()), key, floor)
      ensures floor > 0 ==> answer.contiguous == Contiguous(Tables(), key)
    {
      if floor <= 0 {
        return Refused;
      }
      var changed := key in marks && marks[key].floor < floor;
      if changed {
        var m := marks[key];
        marks := marks[key := Mark(if m.contiguous < floor then floor else m.contiguous, m.maxSeen, m.issued, floor)];
      } else if key !in marks {
        marks := marks[key := Mark(floor, 0, 0, floor)];
        changed := true;
      }
      answer := Applied(marks[key].contiguous, changed);
    }

    method GapSeqs(key: Key, limit: int) returns (seqs: seq<int>, truncated: bool)
      ensures seqs == WatermarkStore.GapSeqs(lane, window, Tables(), key, limit)
      ensures truncated <==> key in marks && Ceiling(Tables(), key) - Contiguous(Tables(), key) > GapLimit(window, limit)
    {
      if key !in marks {
        return [], false;
      }
      var m := marks[key];
      var hi := if m.issued > m.maxSeen then m.issued else m.maxSeen;
      var lim := if limit <= 0 || limit > window then window else limit;
      truncated := hi - m.contiguous > lim;
      if truncated {
        hi := m.contiguous + lim;
      }
      assert hi == GapHi(window, Tables(), key, limit);
      seqs := EnumerateMissingSeqs(key, m.contiguous, hi);
    }

    method ConfirmLost(key: Key, seqs: seq<int>) returns (promoted: nat, contiguous: int)
      modifies this
      ensures (Tables(), promoted) == WatermarkStore.ConfirmLost(lane, window, old(Tables()), key, seqs)
      ensures contiguous == Contiguous(Tables(), key)
    {
      if |seqs| == 0 {
        contiguous := AdvanceWatermark(key, 0);
        return 0, contiguous;
      }
      var lo, hi := seqs[0], seqs[0];
      for i := 0 to |seqs|
        invariant lo <= hi && forall j :: 0 <= j < i ==> lo <= seqs[j] <= hi
      {
        if seqs[i] < lo { lo := seqs[i]; }
        if seqs[i] > hi { hi := seqs[i]; }
      }
      var ceiling := if key in marks then Max(marks[key].maxSeen, marks[key].issued) else 0;
      var present := PresentSeqSet(key, lo - 1, hi);
      var absent: seq<int> := [];
      for i := 0 to |seqs|
        invariant absent == Eligible(lane, Tables(), key, seqs[..i])
      {
        assert seqs[..i + 1][..i] == seqs[..i];
        assert seqs[i] in present <==> seqs[i] in Seen(lane, Tables(), key);
        if seqs[i] > 0 && seqs[i] <= ceiling && seqs[i] !in present {
          absent := absent + [seqs[i]];
        }
      }
      assert seqs[..|seqs|] == seqs;
      if |absent| == 0 {
        contiguous := AdvanceWatermark(key, 0);
        return 0, contiguous;
      }
      contiguous := RecordKnownLoss(key, absent);
      promoted := |absent|;
    }
  }

  datatype Answer = Refused | Applied(contiguous: int, changed: bool)
}
