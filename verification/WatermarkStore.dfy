/**
 The tables behind the delivery-integrity watermark, and what each repository operation
 does to them when it runs alone.

 One model serves both streams. They differ only in which rows count as present for a
 watermark row: the usage stream counts a source across every org, the conversation
 stream counts one (org, source) pair.
 */
module WatermarkStore {
  import opened Sets

  datatype Lane = Usage | Conversation

  // A watermark row is keyed (org_id, source_id).
  datatype Key = Key(org: string, source: string)

  // A stored event that carries a sequence number. The event id keeps two rows with the
  // same (org, source, seq) apart.
  datatype Delivery = Delivery(event: string, key: Key, num: int)

  // One row of the known-loss ledger; its primary key is the whole row.
  datatype Loss = Loss(key: Key, num: int)

  // issued is client_allocated_seq, the highest number the client says it has handed out.
  datatype Mark = Mark(contiguous: int, maxSeen: int, issued: int, floor: int)

  datatype Store = Store(ods: set<Delivery>, ledger: set<Loss>, marks: map<Key, Mark>)

  const EMPTY := Store({}, {}, map[])

  function Max(a: int, b: int): int {
    if a < b then b else a
  }

  function Min(a: int, b: int): int {
    if a < b then a else b
  }

  /** Does a row stored under `row` count towards the watermark kept under `key`? */
  predicate Visible(lane: Lane, row: Key, key: Key) {
    row.source == key.source && (lane.Conversation? ==> row.org == key.org)
  }

  function OdsSeqs(lane: Lane, ods: set<Delivery>, key: Key): set<int> {
    set d | d in ods && Visible(lane, d.key, key) :: d.num
  }

  function LedgerSeqs(lane: Lane, ledger: set<Loss>, key: Key): set<int> {
    set l | l in ledger && Visible(lane, l.key, key) :: l.num
  }

  /** Sequence numbers that are accounted for: received or ledgered. */
  function Seen(lane: Lane, s: Store, key: Key): set<int> {
    OdsSeqs(lane, s.ods, key) + LedgerSeqs(lane, s.ledger, key)
  }

  /**
   The number is there for the watermark row: stored or ledgered by any org under its source in the usage stream, by its
   own org under its source in the conversation stream.
   */
  predicate Present(lane: Lane, s: Store, key: Key, q: int) {
    match lane
    case Usage =>
      (exists d :: d in s.ods && d.key.source == key.source && d.num == q)
      || (exists l :: l in s.ledger && l.key.source == key.source && l.num == q)
    case Conversation =>
      (exists d :: d in s.ods && d.key == key && d.num == q) || Loss(key, q) in s.ledger
  }

  lemma SeenIsPresent(lane: Lane, s: Store, key: Key)
    ensures forall q :: q in Seen(lane, s, key) <==> Present(lane, s, key, q)
  {
    forall q
      ensures q in Seen(lane, s, key) <==> Present(lane, s, key, q)
    {
      if q in OdsSeqs(lane, s.ods, key) {
        var d :| d in s.ods && Visible(lane, d.key, key) && d.num == q;
        assert lane.Conversation? ==> d.key == key;
      }
      if q in LedgerSeqs(lane, s.ledger, key) {
        var l :| l in s.ledger && Visible(lane, l.key, key) && l.num == q;
        assert lane.Conversation? ==> l == Loss(key, q);
      }
    }
  }

  function Window(seqs: set<int>, lo: int, hi: int): set<int> {
    set q | q in seqs && lo < q <= hi
  }

  /** The zipper: walk up from c while the next number is present. */
  function Zip(present: set<int>, c: int, hi: int): (r: int)
    requires forall q :: q in present ==> q <= hi
    ensures c <= r && r <= Max(c, hi)
    ensures forall q :: c < q <= r ==> q in present
    ensures r + 1 !in present
    decreases if c < hi then hi - c else 0
  {
    if c + 1 in present then Zip(present, c + 1, hi) else c
  }

  predicate IsMax(seqs: set<int>, m: int) {
    m in seqs && forall q :: q in seqs ==> q <= m
  }

  lemma {:induction false} MaxExists(seqs: set<int>)
    requires seqs != {}
    ensures exists m :: IsMax(seqs, m)
  {
    var x := Pick(seqs);
    var rest := seqs - {x};
    var top := x;
    if rest != {} {
      MaxExists(rest);
      var m :| IsMax(rest, m);
      top := Max(x, m);
    }
    forall q | q in seqs
      ensures q <= top
    {
      assert q == x || q in rest;
    }
    assert IsMax(seqs, top);
  }

  /** COALESCE(MAX(seq), 0): zero only when there is no row. */
  function MaxSeq(seqs: set<int>): (m: int)
    ensures seqs == {} ==> m == 0
    ensures seqs != {} ==> IsMax(seqs, m)
  {
    if seqs == {} then 0
    else
      MaxExists(seqs);
      var m :| IsMax(seqs, m);
      m
  }

  /** ON CONFLICT DO UPDATE: contiguous is overwritten, the two high-water marks only rise, the floor is not named. */
  function Upsert(marks: map<Key, Mark>, key: Key, contiguous: int, maxSeen: int, issued: int): map<Key, Mark> {
    if key in marks then
      var m := marks[key];
      marks[key := Mark(contiguous, Max(m.maxSeen, maxSeen), Max(m.issued, issued), m.floor)]
    else
      marks[key := Mark(contiguous, maxSeen, issued, 0)]
  }

  function Contiguous(s: Store, key: Key): int {
    if key in s.marks then s.marks[key].contiguous else 0
  }

  function Ceiling(s: Store, key: Key): int {
    if key in s.marks then Max(s.marks[key].maxSeen, s.marks[key].issued) else 0
  }

  function Floor(s: Store, key: Key): int {
    if key in s.marks then s.marks[key].floor else 0
  }

  /** What AdvanceWatermark writes when no other statement runs in between; L is the scan window. */
  function Advance(lane: Lane, L: nat, s: Store, key: Key, issued: int): Store {
    var base := Contiguous(s, key);
    var present := Window(Seen(lane, s, key), base, base + L);
    s.(marks := Upsert(s.marks, key, Zip(present, base, base + L), MaxSeq(OdsSeqs(lane, s.ods, key)), issued))
  }

  /** The numbers of (lo, hi] in increasing order that are not in `present`. */
  function Missing(present: set<int>, lo: int, hi: int): (r: seq<int>)
    ensures forall q :: q in r <==> lo < q <= hi && q !in present
    ensures forall i, j :: 0 <= i < j < |r| ==> r[i] < r[j]
    decreases if lo < hi then hi - lo else 0
  {
    if hi <= lo then []
    else
      var below := Missing(present, lo, hi - 1);
      if hi in present then below
      else
        assert forall i :: 0 <= i < |below| ==> below[i] in below;
        below + [hi]
  }

  /** EnumerateMissingSeqs: the span is cut to the scan window first. */
  function Enumerate(lane: Lane, L: nat, s: Store, key: Key, lo: int, hi: int): (r: seq<int>) {
    Missing(Seen(lane, s, key), lo, Min(hi, lo + L))
  }

  function Elements(seqs: seq<int>): set<int> {
    set q | q in seqs
  }

  function Losses(key: Key, seqs: seq<int>): set<Loss> {
    set q | q in seqs :: Loss(key, q)
  }

  function RecordLoss(lane: Lane, L: nat, s: Store, key: Key, seqs: seq<int>): Store {
    Advance(lane, L, s.(ledger := s.ledger + Losses(key, seqs)), key, 0)
  }

  /** ApplyStreamFloor: raise an existing row, else seed one. The flag says whether a row changed. */
  function ApplyFloor(s: Store, key: Key, floor: int): (Store, bool) {
    if key in s.marks then
      var m := s.marks[key];
      if m.floor < floor then
        (s.(marks := s.marks[key := m.(floor := floor, contiguous := Max(m.contiguous, floor))]), true)
      else (s, false)
    else (s.(marks := s.marks[key := Mark(floor, 0, 0, floor)]), true)
  }

  /** The limit GapSeqs really uses: 0, negative and oversized limits mean the scan window. */
  function GapLimit(L: nat, limit: int): int {
    if limit <= 0 || limit > L then L else limit
  }

  function GapHi(L: nat, s: Store, key: Key, limit: int): int {
    Min(Ceiling(s, key), Contiguous(s, key) + GapLimit(L, limit))
  }

  function GapSeqs(lane: Lane, L: nat, s: Store, key: Key, limit: int): seq<int> {
    if key !in s.marks then []
    else Enumerate(lane, L, s, key, Contiguous(s, key), GapHi(L, s, key, limit))
  }

  /** The declared numbers that ConfirmLost accepts: genuinely absent, positive, not above the ceiling. */
  function Eligible(lane: Lane, s: Store, key: Key, seqs: seq<int>): (r: seq<int>)
    ensures forall q :: q in r <==> q in seqs && 0 < q <= Ceiling(s, key) && q !in Seen(lane, s, key)
  {
    if seqs == [] then []
    else
      var front := Eligible(lane, s, key, seqs[..|seqs| - 1]);
      var q := seqs[|seqs| - 1];
      if 0 < q <= Ceiling(s, key) && q !in Seen(lane, s, key) then front + [q] else front
  }

  function ConfirmLost(lane: Lane, L: nat, s: Store, key: Key, seqs: seq<int>): (Store, nat) {
    var absent := Eligible(lane, s, key, seqs);
    if absent == [] then (Advance(lane, L, s, key, 0), 0)
    else (RecordLoss(lane, L, s, key, absent), |absent|)
  }

  /** promoteKnownLoss: nothing at all happens when the enumerated window has no hole. */
  function Promote(lane: Lane, L: nat, s: Store, key: Key, lo: int, hi: int): Store {
    var missing := Enumerate(lane, L, s, key, lo, hi);
    if missing == [] then s else RecordLoss(lane, L, s, key, missing)
  }

  lemma SeenGrows(lane: Lane, s: Store, t: Store, key: Key)
    requires s.ods <= t.ods && s.ledger <= t.ledger
    ensures OdsSeqs(lane, s.ods, key) <= OdsSeqs(lane, t.ods, key)
    ensures Seen(lane, s, key) <= Seen(lane, t, key)
  {
  }

  lemma RecordLossSeen(lane: Lane, L: nat, s: Store, key: Key, seqs: seq<int>)
    ensures forall q :: q in Seen(lane, RecordLoss(lane, L, s, key, seqs), key) <==> q in Seen(lane, s, key) || q in seqs
  {
    var t := RecordLoss(lane, L, s, key, seqs);
    assert t.ods == s.ods && t.ledger == s.ledger + Losses(key, seqs);
    forall q | q in seqs
      ensures q in LedgerSeqs(lane, t.ledger, key)
    {
      assert Loss(key, q) in t.ledger;
    }
    forall q | q in LedgerSeqs(lane, s.ledger, key)
      ensures q in LedgerSeqs(lane, t.ledger, key)
    {
      var l :| l in s.ledger && Visible(lane, l.key, key) && l.num == q;
      assert l in t.ledger;
    }
  }
}
