/** Version 0.14.2 (tests/v0142-beta.py): parts carry the day they were
    inspected; approved and rejected parts can be edited and move between
    the lists when their verdict changes; parts are searched by period,
    operator, status and shift, and the report can be restricted to a
    search; user records can be renamed, reset, deleted and listed, and only
    two levels remain. The checks and the reason texts of `validar` are those
    of v0.14.1. */
module V0142 {
  import opened Common
  import opened Text
  import opened Json
  import opened Stats
  import opened Credentials
  import Shifts
  import Users
  import V0141

  type Criteria = V0141.Criteria
  type Config = V0141.Config

  // ------------------------------------------------------------------------
  // Parts (Peca)

  datatype Part = Part(id: string, weight: Float, color: string, length: Float, user: string,
                       timestamp: string, day: string, shift: string, approved: bool, reasons: seq<string>)

  /** The part without its inspection day: the record v0.14.1 validates. */
  function Core(p: Part): V0141.Part
  {
    V0141.Part(p.id, p.weight, p.color, p.length, p.user, p.timestamp, p.shift, p.approved, p.reasons)
  }

  /** `Peca(id, peso, cor, comprimento, usuario)` inspected at time `now`, on
      day `today` and in hour `hour`: not yet approved and with no reasons. */
  function NewPart(id: string, weight: Float, color: string, length: Float, user: string,
                   now: string, today: string, hour: int): (p: Part)
    ensures p.id == UpperStrip(id) && p.color == LowerStrip(color)
    ensures p.weight == weight && p.length == length && p.user == user
    ensures p.timestamp == now && p.day == today && p.shift == Shifts.ShiftOf(hour)
    ensures !p.approved && p.reasons == []
  {
    Part(UpperStrip(id), weight, LowerStrip(color), length, user, now, today, Shifts.ShiftOf(hour), false, [])
  }

  /** `validar`: exactly v0.14.1's verdict and reasons, and nothing else about
      the part changes. */
  function Validate(p: Part, c: Criteria): (r: Part)
    ensures r == p.(approved := r.approved, reasons := r.reasons)
    ensures Core(r) == V0141.Validate(Core(p), c)
    ensures r.approved <==> V0141.WeightOk(Core(p), c) && V0141.ColorOk(Core(p), c) && V0141.LengthOk(Core(p), c)
    ensures r.approved <==> r.reasons == []
  {
    var v := V0141.Validate(Core(p), c);
    p.(approved := v.approved, reasons := v.reasons)
  }

  /** One reason per failed check, in the order weight, colour, length, each
      filed by the report under the check it names. */
  lemma ValidateReasons(p: Part, c: Criteria)
    requires V0141.PlainCriteria(c) && Plain(p.weight.repr) && Plain(p.length.repr) && IsLower(p.color)
    ensures var r := Validate(p, c); var ks := V0141.Failed(Core(p), c);
      |r.reasons| == |ks|
      && forall i :: 0 <= i < |ks| ==> r.reasons[i] == V0141.Reason(Core(p), c, ks[i])
                                       && Classify(r.reasons[i]) == Some(ks[i])
  {
    var ks := V0141.Failed(Core(p), c);
    forall i | 0 <= i < |ks|
      ensures Classify(V0141.Reason(Core(p), c, ks[i])) == Some(ks[i])
    {
      V0141.ReasonsClassified(Core(p), c, ks[i]);
    }
  }

  // ------------------------------------------------------------------------
  // Boxes (Caixa)
  //
  // The box, the ID lookups and the packing below follow v0.14.1's line for
  // line. They are declared again because a v0.14.2 box holds v0.14.2 parts,
  // which carry the inspection day: `V0141.BoxRecord` is fixed to
  // `V0141.Part`. Storing `Core(p)` in it would make a boxed part differ
  // from the same part in the approved list: the day would be missing. In
  // the program, a box and the list hold the same `Peca` objects, and
  // `to_dict` writes `data_inspecao` for the parts of a box too.

  datatype BoxRecord = BoxRecord(number: int, capacity: int, parts: seq<Part>,
                                 closedAt: Option<string>, closedBy: string, createdAt: string)

  /** `esta_cheia`. */
  predicate Full(b: BoxRecord)
  {
    |b.parts| >= b.capacity
  }

  /** `vagas_disponiveis`: the free slots, never negative. */
  function Vacancies(b: BoxRecord): (v: nat)
    ensures v == 0 <==> Full(b)
    ensures v > 0 ==> |b.parts| + v == b.capacity
  {
    if b.capacity > |b.parts| then b.capacity - |b.parts| else 0
  }

  /** `Caixa(numero, capacidade)` created at `now`. */
  function EmptyBox(number: int, capacity: int, now: string): (b: BoxRecord)
    ensures b.parts == [] && b.closedAt.None? && b.closedBy == ""
  {
    BoxRecord(number, capacity, [], None, "", now)
  }

  /** `Caixa.adicionar_peca` at time `now`: below capacity the part is
      appended and the box is stamped closed by the part's operator exactly
      when that fills it; a full box refuses the part and stays as it was. */
  function Put(b: BoxRecord, p: Part, now: string): (r: (bool, BoxRecord))
    ensures r.0 <==> |b.parts| < b.capacity
    ensures !r.0 ==> r.1 == b
    ensures r.0 ==> r.1.parts == b.parts + [p] && r.1.number == b.number
                    && r.1.capacity == b.capacity && r.1.createdAt == b.createdAt
    ensures r.0 && Full(r.1) ==> r.1.closedAt == Some(now) && r.1.closedBy == p.user
    ensures r.0 && !Full(r.1) ==> r.1.closedAt == b.closedAt && r.1.closedBy == b.closedBy
  {
    if |b.parts| < b.capacity then
      var b' := b.(parts := b.parts + [p]);
      if |b'.parts| >= b'.capacity then (true, b'.(closedAt := Some(now), closedBy := p.user))
      else (true, b')
    else (false, b)
  }

  class Box {
    var number: int
    var capacity: int
    var parts: seq<Part>
    var closedAt: Option<string>
    var closedBy: string
    var createdAt: string

    constructor (number: int, capacity: int, now: string)
      ensures Record() == EmptyBox(number, capacity, now)
    {
      this.number := number;
      this.capacity := capacity;
      parts := [];
      closedAt := None;
      closedBy := "";
      createdAt := now;
    }

    function Record(): BoxRecord
      reads this
    {
      BoxRecord(number, capacity, parts, closedAt, closedBy, createdAt)
    }

    predicate IsFull()
      reads this
    {
      Full(Record())
    }

    function FreeSlots(): nat
      reads this
    {
      Vacancies(Record())
    }

    /** `adicionar_peca`. */
    method Add(p: Part, now: string) returns (ok: bool)
      modifies this
      ensures (ok, Record()) == Put(old(Record()), p, now)
    {
      if |parts| < capacity {
        parts := parts + [p];
        if |parts| >= capacity {
          Close(p.user, now);
        }
        ok := true;
      } else {
        ok := false;
      }
    }

    /** `fechar`: stamps the closing time and operator. */
    method Close(user: string, now: string)
      modifies this
      ensures Record() == old(Record()).(closedAt := Some(now), closedBy := user)
    {
      closedAt := Some(now);
      closedBy := user;
    }

    /** The box loops of `remover_peca` and `editar_peca`: deletes the first
        part with this ID, if any. */
    method Discard(id: string)
      modifies this
      ensures Record() == old(Record()).(parts := WithoutFirst(old(parts), id))
    {
      var j := FindId(parts, id);
      if j >= 0 {
        parts := parts[..j] + parts[j + 1..];
      }
    }
  }

  /** The position of the first part with this ID, or -1. */
  function FirstIndex(ps: seq<Part>, id: string): (r: int)
    ensures -1 <= r < |ps|
    ensures r == -1 <==> forall i :: 0 <= i < |ps| ==> ps[i].id != id
    ensures r >= 0 ==> ps[r].id == id && forall i :: 0 <= i < r ==> ps[i].id != id
  {
    if ps == [] then -1
    else if ps[0].id == id then 0
    else var r := FirstIndex(ps[1..], id); if r == -1 then -1 else r + 1
  }

  /** `for i, p in enumerate(ps): if p.id_peca == id: …`. */
  method FindId(ps: seq<Part>, id: string) returns (r: int)
    ensures r == FirstIndex(ps, id)
  {
    r := 0;
    while r < |ps|
      invariant 0 <= r <= |ps|
      invariant forall i :: 0 <= i < r ==> ps[i].id != id
    {
      if ps[r].id == id {
        return;
      }
      r := r + 1;
    }
    r := -1;
  }

  /** The list without the first part carrying this ID (the list itself when none does). */
  function WithoutFirst(ps: seq<Part>, id: string): (r: seq<Part>)
    ensures FirstIndex(ps, id) == -1 ==> r == ps
    ensures FirstIndex(ps, id) >= 0 ==>
              |r| == |ps| - 1 && r == ps[..FirstIndex(ps, id)] + ps[FirstIndex(ps, id) + 1..]
  {
    var j := FirstIndex(ps, id);
    if j >= 0 then ps[..j] + ps[j + 1..] else ps
  }

  /** The IDs of the parts, in order. */
  function Ids(ps: seq<Part>): (r: seq<string>)
    ensures |r| == |ps| && forall i :: 0 <= i < |ps| ==> r[i] == ps[i].id
  {
    seq(|ps|, i requires 0 <= i < |ps| => ps[i].id)
  }

  lemma IdsConcat(a: seq<Part>, b: seq<Part>)
    ensures Ids(a + b) == Ids(a) + Ids(b)
  {
  }

  /** Deleting the part at `j` drops its ID once from the IDs. */
  lemma IdsDelete(ps: seq<Part>, j: nat)
    requires j < |ps|
    ensures multiset(Ids(ps[..j] + ps[j + 1..])) + multiset{ps[j].id} == multiset(Ids(ps))
  {
    var xs := Ids(ps);
    assert Ids(ps[..j]) == xs[..j];
    assert Ids(ps[j + 1..]) == xs[j + 1..];
    IdsConcat(ps[..j], ps[j + 1..]);
    assert xs == xs[..j] + [xs[j]] + xs[j + 1..];
    assert multiset(xs) == multiset(xs[..j]) + multiset{xs[j]} + multiset(xs[j + 1..]);
  }

  /** Replacing a part by one with the same ID keeps the IDs. */
  lemma IdsUpdate(ps: seq<Part>, j: nat, e: Part)
    requires j < |ps| && e.id == ps[j].id
    ensures Ids(ps[j := e]) == Ids(ps)
  {
  }

  /** Dropping the first part with an ID drops that ID once from the IDs. */
  lemma IdsWithoutFirst(ps: seq<Part>, id: string)
    requires FirstIndex(ps, id) >= 0
    ensures multiset(Ids(WithoutFirst(ps, id))) + multiset{id} == multiset(Ids(ps))
  {
    var j := FirstIndex(ps, id);
    assert WithoutFirst(ps, id) == ps[..j] + ps[j + 1..];
    assert ps[j].id == id;
    IdsDelete(ps, j);
  }

  // ------------------------------------------------------------------------
  // The ledger (BancoDados): packing, adding, editing and removing parts

  datatype Stock = Stock(approved: seq<Part>, rejected: seq<Part>, closed: seq<BoxRecord>, current: BoxRecord)

  /** The parts of a run of boxes, box after box. */
  function PartsOf(boxes: seq<BoxRecord>): seq<Part>
  {
    if boxes == [] then [] else PartsOf(boxes[..|boxes| - 1]) + boxes[|boxes| - 1].parts
  }

  lemma PartsOfAppend(boxes: seq<BoxRecord>, b: BoxRecord)
    ensures PartsOf(boxes + [b]) == PartsOf(boxes) + b.parts
  {
    assert (boxes + [b])[..|boxes|] == boxes;
  }

  /** Every packed part: the closed boxes' parts, then the current box's. */
  function Packed(closed: seq<BoxRecord>, current: BoxRecord): seq<Part>
  {
    PartsOf(closed) + current.parts
  }

  /** The rollover in `adicionar_peca` for an approved part: put it in the
      current box; if that refuses, archive the box, open box number
      len(closed) + 1 with the configured capacity and put it there; then, if
      the current box is full, archive it and open the next one. It archives at
      most two boxes and rewrites no closed one. */
  function Pack(closed: seq<BoxRecord>, current: BoxRecord, p: Part, capacity: int, now: string)
    : (r: (seq<BoxRecord>, BoxRecord))
    ensures |closed| <= |r.0| <= |closed| + 2 && r.0[..|closed|] == closed
  {
    var first := Put(current, p, now);
    var closed1 := if first.0 then closed else closed + [current];
    var cur1 := if first.0 then first.1 else Put(EmptyBox(|closed1| + 1, capacity, now), p, now).1;
    if Full(cur1) then (closed1 + [cur1], EmptyBox(|closed1| + 2, capacity, now)) else (closed1, cur1)
  }

  /** With a capacity of at least 1 the part ends up behind every packed part
      and the box left open is not full; a box opened on the way carries the
      next number and the configured capacity. */
  lemma PackSpec(closed: seq<BoxRecord>, current: BoxRecord, p: Part, capacity: int, now: string)
    ensures var r := Pack(closed, current, p, capacity, now);
      (r.0 == closed ==> r.1 == Put(current, p, now).1)
      && (r.0 != closed ==> r.1.number == |r.0| + 1 && r.1.capacity == capacity)
      && (capacity >= 1 ==> !Full(r.1) && Packed(r.0, r.1) == Packed(closed, current) + [p])
  {
    var first := Put(current, p, now);
    var closed1 := if first.0 then closed else closed + [current];
    PartsOfAppend(closed, current);
    var cur1 := if first.0 then first.1 else Put(EmptyBox(|closed1| + 1, capacity, now), p, now).1;
    PartsOfAppend(closed1, cur1);
    assert (closed1 + [cur1])[..|closed|] == closed;
  }

  /** A part with this ID is already approved or rejected. */
  predicate Known(s: Stock, id: string)
  {
    FirstIndex(s.approved + s.rejected, id) >= 0
  }

  lemma KnownSplit(s: Stock, id: string)
    ensures Known(s, id) <==> FirstIndex(s.approved, id) >= 0 || FirstIndex(s.rejected, id) >= 0
  {
    var all := s.approved + s.rejected;
    if FirstIndex(s.approved, id) >= 0 {
      assert all[FirstIndex(s.approved, id)].id == id;
    }
    if FirstIndex(s.rejected, id) >= 0 {
      assert all[|s.approved| + FirstIndex(s.rejected, id)].id == id;
    }
    if FirstIndex(all, id) >= 0 {
      var k := FirstIndex(all, id);
      if k >= |s.approved| {
        assert s.rejected[k - |s.approved|].id == id;
      }
    }
  }

  /** `adicionar_peca`: a duplicate ID is refused and nothing changes; any
      other part is validated against the configured criteria and appended to
      exactly one of the two lists, the approved one exactly when it passes,
      and an approved part is packed. */
  function AddPart(s: Stock, p: Part, config: Config, now: string): (r: (bool, Stock))
    ensures r.0 <==> !Known(s, p.id)
    ensures !r.0 ==> r.1 == s
    ensures r.0 && Validate(p, config.criteria).approved ==>
              r.1.approved == s.approved + [Validate(p, config.criteria)] && r.1.rejected == s.rejected
              && (r.1.closed, r.1.current) == Pack(s.closed, s.current, Validate(p, config.criteria), config.capacity, now)
    ensures r.0 && !Validate(p, config.criteria).approved ==>
              r.1 == s.(rejected := s.rejected + [Validate(p, config.criteria)])
  {
    if Known(s, p.id) then (false, s)
    else
      var v := Validate(p, config.criteria);
      if v.approved then
        var packed := Pack(s.closed, s.current, v, config.capacity, now);
        (true, Stock(s.approved + [v], s.rejected, packed.0, packed.1))
      else (true, s.(rejected := s.rejected + [v]))
  }

  /** Each list holds only parts with its own verdict. */
  predicate Flagged(s: Stock)
  {
    (forall x :: x in s.approved ==> x.approved) && (forall x :: x in s.rejected ==> !x.approved)
  }

  /** Adding keeps each list to its verdict, never rewrites a closed box,
      and with a capacity of at least 1 keeps room in the current box and
      packs exactly the newly approved part. */
  lemma AddKeepsStock(s: Stock, p: Part, config: Config, now: string)
    requires Flagged(s)
    ensures var r := AddPart(s, p, config, now).1;
      Flagged(r) && |s.closed| <= |r.closed| && r.closed[..|s.closed|] == s.closed
      && (config.capacity >= 1 && !Full(s.current) ==>
            !Full(r.current)
            && Packed(r.closed, r.current) ==
               Packed(s.closed, s.current) + (if |r.approved| > |s.approved| then [Validate(p, config.criteria)] else []))
  {
    var v := Validate(p, config.criteria);
    if !Known(s, p.id) && v.approved {
      PackSpec(s.closed, s.current, v, config.capacity, now);
    } else {
      assert s.closed[..|s.closed|] == s.closed;
    }
  }

  /** `remover_peca` once the ID is normalised: the key is looked up among
      the approved parts first (deleting the first match there and that key's
      first occurrence in the current box) and then among the rejected ones;
      closed boxes never change and an unknown key changes nothing. */
  function RemoveKey(s: Stock, key: string): (r: (bool, Stock))
    ensures r.1.closed == s.closed
    ensures r.0 <==> Known(s, key)
    ensures !r.0 ==> r.1 == s
    ensures FirstIndex(s.approved, key) >= 0 ==>
              r.1 == s.(approved := WithoutFirst(s.approved, key),
                        current := s.current.(parts := WithoutFirst(s.current.parts, key)))
    ensures FirstIndex(s.approved, key) < 0 ==> r.1 == s.(rejected := WithoutFirst(s.rejected, key))
  {
    KnownSplit(s, key);
    if FirstIndex(s.approved, key) >= 0 then
      (true, s.(approved := WithoutFirst(s.approved, key),
                current := s.current.(parts := WithoutFirst(s.current.parts, key))))
    else if FirstIndex(s.rejected, key) >= 0 then
      (true, s.(rejected := WithoutFirst(s.rejected, key)))
    else (false, s)
  }

  /** What is left after dropping a part was in the list before. */
  lemma WithoutFirstIn(ps: seq<Part>, id: string)
    ensures forall x :: x in WithoutFirst(ps, id) ==> x in ps
  {
    var j := FirstIndex(ps, id);
    if j >= 0 {
      assert ps == ps[..j] + [ps[j]] + ps[j + 1..];
    }
  }

  /** What is in a list after one slot is overwritten was there before or is the new part. */
  lemma UpdateIn(ps: seq<Part>, i: nat, e: Part)
    requires i < |ps|
    ensures forall x :: x in ps[i := e] ==> x in ps || x == e
  {
    forall x | x in ps[i := e] ensures x in ps || x == e {
      var k :| 0 <= k < |ps| && ps[i := e][k] == x;
      if k != i {
        assert x == ps[k];
      }
    }
  }

  /** Dropping a part with this ID from one of two lists drops the ID once
      from the IDs of both together, in either order. */
  lemma IdsAfterDelete(from: seq<Part>, other: seq<Part>, key: string)
    requires FirstIndex(from, key) >= 0
    ensures multiset(Ids(WithoutFirst(from, key) + other)) + multiset{key} == multiset(Ids(from + other))
    ensures multiset(Ids(other + WithoutFirst(from, key))) + multiset{key} == multiset(Ids(other + from))
  {
    IdsWithoutFirst(from, key);
    IdsConcat(WithoutFirst(from, key), other);
    IdsConcat(from, other);
    IdsConcat(other, WithoutFirst(from, key));
    IdsConcat(other, from);
  }

  /** Removing keeps each list to its verdict and takes exactly the removed
      ID out of the ledger's IDs. */
  lemma RemoveKeepsStock(s: Stock, key: string)
    requires Flagged(s)
    ensures var r := RemoveKey(s, key);
      Flagged(r.1)
      && multiset(Ids(r.1.approved + r.1.rejected)) + (if r.0 then multiset{key} else multiset{})
         == multiset(Ids(s.approved + s.rejected))
  {
    KnownSplit(s, key);
    if FirstIndex(s.approved, key) >= 0 {
      IdsAfterDelete(s.approved, s.rejected, key);
      WithoutFirstIn(s.approved, key);
    } else if FirstIndex(s.rejected, key) >= 0 {
      IdsAfterDelete(s.rejected, s.approved, key);
      WithoutFirstIn(s.rejected, key);
    }
  }

  /** The part `editar_peca` revalidates: the new weight and length, the new
      colour lower-cased but not stripped. */
  function Revised(p: Part, weight: Float, color: string, length: Float, c: Criteria): (r: Part)
    ensures r == p.(weight := weight, color := Lower(color), length := length,
                    approved := r.approved, reasons := r.reasons)
    ensures r.approved <==> V0141.WeightOk(Core(r), c) && V0141.ColorOk(Core(r), c) && V0141.LengthOk(Core(r), c)
    ensures r.approved <==> r.reasons == []
  {
    Validate(p.(weight := weight, color := Lower(color), length := length), c)
  }

  /** `editar_peca` once the ID is normalised. The key is looked up among the
      approved parts first, then among the rejected ones, and the first match
      is revised. An approved part that still passes stays where it is; one
      that now fails moves to the end of the rejected list and its first
      occurrence leaves the current box (a closed box keeps it). A rejected
      part that still fails stays where it is; one that now passes moves to
      the end of the approved list and is offered to the current box with no
      rollover. An unknown key changes nothing. */
  function EditKey(s: Stock, key: string, weight: Float, color: string, length: Float, c: Criteria,
                   now: string): (r: (bool, Stock))
    ensures r.0 <==> Known(s, key)
    ensures !r.0 ==> r.1 == s
    ensures r.1.closed == s.closed
    ensures |r.1.approved| + |r.1.rejected| == |s.approved| + |s.rejected|
  {
    KnownSplit(s, key);
    var i := FirstIndex(s.approved, key);
    if i >= 0 then
      var e := Revised(s.approved[i], weight, color, length, c);
      if e.approved then (true, s.(approved := s.approved[i := e]))
      else (true, s.(approved := WithoutFirst(s.approved, key), rejected := s.rejected + [e],
                     current := s.current.(parts := WithoutFirst(s.current.parts, key))))
    else
      var j := FirstIndex(s.rejected, key);
      if j >= 0 then
        var e := Revised(s.rejected[j], weight, color, length, c);
        if e.approved then
          (true, s.(approved := s.approved + [e], rejected := WithoutFirst(s.rejected, key),
                    current := Put(s.current, e, now).1))
        else (true, s.(rejected := s.rejected[j := e]))
      else (false, s)
  }

  /** The revised part `editar_peca` would write for this key. */
  function EditedPart(s: Stock, key: string, weight: Float, color: string, length: Float, c: Criteria)
    : (e: Part)
    requires Known(s, key)
    ensures e.id == key && e.weight == weight && e.color == Lower(color) && e.length == length
    ensures e.approved <==> V0141.WeightOk(Core(e), c) && V0141.ColorOk(Core(e), c) && V0141.LengthOk(Core(e), c)
  {
    KnownSplit(s, key);
    if FirstIndex(s.approved, key) >= 0 then Revised(s.approved[FirstIndex(s.approved, key)], weight, color, length, c)
    else Revised(s.rejected[FirstIndex(s.rejected, key)], weight, color, length, c)
  }

  /** Moving the first part with an ID from one list to the end of the
      other keeps the IDs of both together. */
  lemma IdsMovedOut(a: seq<Part>, b: seq<Part>, key: string, e: Part)
    requires e.id == key && FirstIndex(a, key) >= 0
    ensures multiset(Ids(WithoutFirst(a, key) + (b + [e]))) == multiset(Ids(a + b))
  {
    var w := WithoutFirst(a, key);
    IdsWithoutFirst(a, key);
    IdsConcat(w, b + [e]);
    IdsConcat(b, [e]);
    IdsConcat(a, b);
    assert Ids([e]) == [key];
  }

  lemma IdsMovedIn(a: seq<Part>, b: seq<Part>, key: string, e: Part)
    requires e.id == key && FirstIndex(b, key) >= 0
    ensures multiset(Ids((a + [e]) + WithoutFirst(b, key))) == multiset(Ids(a + b))
  {
    var w := WithoutFirst(b, key);
    IdsWithoutFirst(b, key);
    IdsConcat(a + [e], w);
    IdsConcat(a, [e]);
    IdsConcat(a, b);
    assert Ids([e]) == [key];
  }

  /** Editing changes no ID: the ledger holds the same IDs, as many times each. */
  lemma EditKeepsIds(s: Stock, key: string, weight: Float, color: string, length: Float, c: Criteria, now: string)
    requires Known(s, key)
    ensures var r := EditKey(s, key, weight, color, length, c, now).1;
      multiset(Ids(r.approved + r.rejected)) == multiset(Ids(s.approved + s.rejected))
  {
    KnownSplit(s, key);
    var r := EditKey(s, key, weight, color, length, c, now).1;
    var e := EditedPart(s, key, weight, color, length, c);
    var i := FirstIndex(s.approved, key);
    if i >= 0 {
      if e.approved {
        assert r.approved == s.approved[i := e] && r.rejected == s.rejected;
        IdsUpdate(s.approved, i, e);
        IdsConcat(s.approved, s.rejected);
        IdsConcat(r.approved, r.rejected);
      } else {
        assert r.approved == WithoutFirst(s.approved, key) && r.rejected == s.rejected + [e];
        IdsMovedOut(s.approved, s.rejected, key, e);
      }
    } else {
      var j := FirstIndex(s.rejected, key);
      if e.approved {
        assert r.approved == s.approved + [e] && r.rejected == WithoutFirst(s.rejected, key);
        IdsMovedIn(s.approved, s.rejected, key, e);
      } else {
        assert r.approved == s.approved && r.rejected == s.rejected[j := e];
        IdsUpdate(s.rejected, j, e);
        IdsConcat(s.approved, s.rejected);
        IdsConcat(r.approved, r.rejected);
      }
    }
  }

  /** Editing keeps each list to its verdict: the revised part carries the
      key, the new measurements and a fresh verdict, and lands in the list
      of that verdict. */
  lemma EditKeepsFlagged(s: Stock, key: string, weight: Float, color: string, length: Float, c: Criteria, now: string)
    requires Flagged(s) && Known(s, key)
    ensures var r := EditKey(s, key, weight, color, length, c, now).1;
      var e := EditedPart(s, key, weight, color, length, c);
      Flagged(r)
      && e.id == key && e.weight == weight && e.color == Lower(color) && e.length == length
      && (e.approved <==> V0141.WeightOk(Core(e), c) && V0141.ColorOk(Core(e), c) && V0141.LengthOk(Core(e), c))
      && (e.approved ==> e in r.approved) && (!e.approved ==> e in r.rejected)
  {
    EditLands(s, key, weight, color, length, c, now);
  }

  /** The revised part lands in the list of its verdict, and both lists keep
      to their verdicts. */
  lemma EditLands(s: Stock, key: string, weight: Float, color: string, length: Float, c: Criteria, now: string)
    requires Flagged(s) && Known(s, key)
    ensures var r := EditKey(s, key, weight, color, length, c, now).1;
      var e := EditedPart(s, key, weight, color, length, c);
      Flagged(r) && (e.approved ==> e in r.approved) && (!e.approved ==> e in r.rejected)
  {
    KnownSplit(s, key);
    if FirstIndex(s.approved, key) >= 0 {
      EditLandsFromApproved(s, key, weight, color, length, c, now);
    } else {
      EditLandsFromRejected(s, key, weight, color, length, c, now);
    }
  }

  lemma EditLandsFromApproved(s: Stock, key: string, weight: Float, color: string, length: Float, c: Criteria,
                              now: string)
    requires Flagged(s) && FirstIndex(s.approved, key) >= 0
    ensures var r := EditKey(s, key, weight, color, length, c, now).1;
      var e := Revised(s.approved[FirstIndex(s.approved, key)], weight, color, length, c);
      Flagged(r) && (e.approved ==> e in r.approved) && (!e.approved ==> e in r.rejected)
  {
    var r := EditKey(s, key, weight, color, length, c, now).1;
    var i := FirstIndex(s.approved, key);
    var e := Revised(s.approved[i], weight, color, length, c);
    if e.approved {
      assert r.approved == s.approved[i := e] && r.rejected == s.rejected;
      UpdateIn(s.approved, i, e);
      assert r.approved[i] == e;
    } else {
      assert r.approved == WithoutFirst(s.approved, key) && r.rejected == s.rejected + [e];
      WithoutFirstIn(s.approved, key);
      assert r.rejected[|s.rejected|] == e;
    }
  }

  lemma EditLandsFromRejected(s: Stock, key: string, weight: Float, color: string, length: Float, c: Criteria,
                              now: string)
    requires Flagged(s) && FirstIndex(s.approved, key) < 0 && FirstIndex(s.rejected, key) >= 0
    ensures var r := EditKey(s, key, weight, color, length, c, now).1;
      var e := Revised(s.rejected[FirstIndex(s.rejected, key)], weight, color, length, c);
      Flagged(r) && (e.approved ==> e in r.approved) && (!e.approved ==> e in r.rejected)
  {
    var r := EditKey(s, key, weight, color, length, c, now).1;
    var j := FirstIndex(s.rejected, key);
    var e := Revised(s.rejected[j], weight, color, length, c);
    if e.approved {
      assert r.approved == s.approved + [e] && r.rejected == WithoutFirst(s.rejected, key);
      WithoutFirstIn(s.rejected, key);
      assert r.approved[|s.approved|] == e;
    } else {
      assert r.approved == s.approved && r.rejected == s.rejected[j := e];
      UpdateIn(s.rejected, j, e);
      assert r.rejected[j] == e;
    }
  }

  /** Revising a rejected part into an approved one can leave the current box
      full: the box is not rolled over as `adicionar_peca` would. */
  lemma EditCanFillBox(s: Stock, key: string, weight: Float, color: string, length: Float, c: Criteria, now: string)
    requires FirstIndex(s.approved, key) < 0 && FirstIndex(s.rejected, key) >= 0
    requires Revised(s.rejected[FirstIndex(s.rejected, key)], weight, color, length, c).approved
    requires |s.current.parts| + 1 == s.current.capacity
    ensures var r := EditKey(s, key, weight, color, length, c, now).1;
      Full(r.current) && r.current.closedAt == Some(now) && r.closed == s.closed
  {
  }

  // ------------------------------------------------------------------------
  // buscar_pecas_por_filtro

  /** A filter argument as Python tests it: present and non-empty. */
  predicate Given(x: Option<string>)
  {
    x.Some? && x.value != ""
  }

  /** The arguments of `buscar_pecas_por_filtro`. */
  datatype Query = Query(start: Option<string>, end: Option<string>, user: Option<string>,
                         status: Option<string>, shift: Option<string>)

  /** `strptime(…, "%Y-%m-%d")` as a day number; `None` where it raises. */
  type DayParser = string -> Option<int>

  /** The period filter applies only when both bounds are given. */
  predicate DateFiltered(q: Query)
  {
    Given(q.start) && Given(q.end)
  }

  /** Reading this part's date check raises ValueError: its inspection day or
      a bound does not parse. */
  predicate Raises(p: Part, q: Query, day: DayParser)
  {
    DateFiltered(q) && (day(p.day).None? || day(q.start.value).None? || day(q.end.value).None?)
  }

  /** The part satisfies every filter that is given: its day lies in the
      period (both ends included), and the operator, status and shift match. */
  function Selected(p: Part, q: Query, day: DayParser): (b: bool)
    ensures !DateFiltered(q) && !Given(q.user) && q.status.None? && !Given(q.shift) ==> b
    ensures b && DateFiltered(q) ==> !Raises(p, q, day)
    ensures b && q.status == Some("aprovadas") ==> p.approved
    ensures b && q.status == Some("reprovadas") ==> !p.approved
  {
    (DateFiltered(q) ==> day(p.day).Some? && day(q.start.value).Some? && day(q.end.value).Some?
                         && day(q.start.value).value <= day(p.day).value <= day(q.end.value).value)
    && (Given(q.user) ==> p.user == q.user.value)
    && (q.status == Some("aprovadas") ==> p.approved)
    && (q.status == Some("reprovadas") ==> !p.approved)
    && (Given(q.shift) ==> p.shift == q.shift.value)
  }

  /** The search over `ps` in order; `None` where a date check raises. */
  function Select(ps: seq<Part>, q: Query, day: DayParser): (r: Option<seq<Part>>)
    ensures r.Some? ==> |r.value| <= |ps|
    ensures r.Some? ==> forall i :: 0 <= i < |r.value| ==> r.value[i] in ps && Selected(r.value[i], q, day)
  {
    if ps == [] then Some([])
    else
      var last := ps[|ps| - 1];
      match Select(ps[..|ps| - 1], q, day)
      case None => None
      case Some(r) => if Raises(last, q, day) then None else Some(r + (if Selected(last, q, day) then [last] else []))
  }

  /** One more part: what `Select` does with the last one. */
  lemma SelectSnoc(ps: seq<Part>, x: Part, q: Query, day: DayParser)
    ensures Select(ps + [x], q, day) ==
            match Select(ps, q, day)
            case None => None
            case Some(r) => if Raises(x, q, day) then None else Some(r + (if Selected(x, q, day) then [x] else []))
  {
    assert (ps + [x])[..|ps|] == ps;
  }

  /** The search raises exactly when some part's date check does. */
  lemma {:induction false} SelectRaises(ps: seq<Part>, q: Query, day: DayParser)
    ensures Select(ps, q, day).None? <==> exists i :: 0 <= i < |ps| && Raises(ps[i], q, day)
  {
    if ps != [] {
      var init := ps[..|ps| - 1];
      SelectRaises(init, q, day);
      if exists i :: 0 <= i < |init| && Raises(init[i], q, day) {
        var i :| 0 <= i < |init| && Raises(init[i], q, day);
        assert ps[i] == init[i];
      }
      if exists i :: 0 <= i < |ps| && Raises(ps[i], q, day) {
        var i :| 0 <= i < |ps| && Raises(ps[i], q, day);
        if i < |init| {
          assert init[i] == ps[i];
        }
      }
    }
  }

  /** A part is found exactly when it is in the list and satisfies every
      given filter. */
  lemma {:induction false} SelectMembers(ps: seq<Part>, q: Query, day: DayParser, x: Part)
    requires Select(ps, q, day).Some?
    ensures x in Select(ps, q, day).value <==> x in ps && Selected(x, q, day)
  {
    if ps != [] {
      var init := ps[..|ps| - 1];
      SelectMembers(init, q, day, x);
      assert ps == init + [ps[|ps| - 1]];
    }
  }

  /** The search keeps the order of the list: searching two lists one after
      the other finds the first one's parts, then the second one's. */
  lemma {:induction false} SelectConcat(a: seq<Part>, b: seq<Part>, q: Query, day: DayParser)
    requires Select(a, q, day).Some? && Select(b, q, day).Some?
    ensures Select(a + b, q, day) == Some(Select(a, q, day).value + Select(b, q, day).value)
    decreases |b|
  {
    if b == [] {
      assert a + b == a;
      assert Select(a, q, day).value + [] == Select(a, q, day).value;
    } else {
      var init, last := b[..|b| - 1], b[|b| - 1];
      assert b == init + [last];
      assert a + b == (a + init) + [last];
      SelectSnoc(init, last, q, day);
      SelectSnoc(a + init, last, q, day);
      SelectConcat(a, init, q, day);
      var x, y := Select(a, q, day).value, Select(init, q, day).value;
      var t := if Selected(last, q, day) then [last] else [];
      assert Select(b, q, day) == Some(y + t);
      assert Select(a + b, q, day) == Some((x + y) + t);
      assert (x + y) + t == x + (y + t);
    }
  }

  lemma {:induction false} SelectStops(ps: seq<Part>, i: nat, q: Query, day: DayParser)
    requires i <= |ps| && Select(ps[..i], q, day).None?
    ensures Select(ps, q, day).None?
    decreases |ps| - i
  {
    if i < |ps| {
      assert ps[..i + 1][..i] == ps[..i];
      SelectStops(ps, i + 1, q, day);
    } else {
      assert ps[..i] == ps;
    }
  }

  // ------------------------------------------------------------------------
  // gerar_relatorio, optionally restricted to a search

  /** `[p for p in ps if p.aprovada]`. */
  function ApprovedOf(ps: seq<Part>): (r: seq<Part>)
    ensures forall x :: x in r <==> x in ps && x.approved
  {
    if ps == [] then []
    else ApprovedOf(ps[..|ps| - 1]) + (if ps[|ps| - 1].approved then [ps[|ps| - 1]] else [])
  }

  /** `[p for p in ps if not p.aprovada]`. */
  function RejectedOf(ps: seq<Part>): (r: seq<Part>)
    ensures forall x :: x in r <==> x in ps && !x.approved
  {
    if ps == [] then []
    else RejectedOf(ps[..|ps| - 1]) + (if ps[|ps| - 1].approved then [] else [ps[|ps| - 1]])
  }

  /** The two comprehensions split the list between them. */
  lemma {:induction false} PartitionSizes(ps: seq<Part>)
    ensures |ApprovedOf(ps)| + |RejectedOf(ps)| == |ps|
  {
    if ps != [] {
      PartitionSizes(ps[..|ps| - 1]);
    }
  }

  /** On a list that holds only approved parts followed by only rejected
      ones, the comprehensions give back the two runs. */
  lemma {:induction false} PartitionRuns(a: seq<Part>, b: seq<Part>)
    requires forall x :: x in a ==> x.approved
    requires forall x :: x in b ==> !x.approved
    ensures ApprovedOf(a + b) == a && RejectedOf(a + b) == b
    decreases |b|
  {
    if b == [] {
      assert a + b == a;
      PartitionApproved(a);
    } else {
      var init := b[..|b| - 1];
      assert (a + b)[..|a + b| - 1] == a + init;
      assert b == init + [b[|b| - 1]];
      PartitionRuns(a, init);
    }
  }

  lemma {:induction false} PartitionApproved(a: seq<Part>)
    requires forall x :: x in a ==> x.approved
    ensures ApprovedOf(a) == a && RejectedOf(a) == []
  {
    if a != [] {
      var init := a[..|a| - 1];
      assert a == init + [a[|a| - 1]];
      PartitionApproved(init);
    }
  }

  /** The (shift, approved) mark of every part, in order. */
  function Marks(ps: seq<Part>): (m: seq<(string, bool)>)
    ensures |m| == |ps|
  {
    if ps == [] then [] else Marks(ps[..|ps| - 1]) + [(ps[|ps| - 1].shift, ps[|ps| - 1].approved)]
  }

  /** Every rejection reason of the parts, part after part. */
  function AllReasons(ps: seq<Part>): seq<string>
  {
    if ps == [] then [] else AllReasons(ps[..|ps| - 1]) + ps[|ps| - 1].reasons
  }

  /** `filtros_aplicados`. */
  datatype Filters = Filters(start: Option<string>, end: Option<string>, user: Option<string>)

  /** The dict `gerar_relatorio` returns, generated at `generatedAt`; `rate`
      is the approval percentage before Python rounds it to two places. The
      details are the parts and boxes whose `to_dict` the report lists. */
  datatype Report = Report(generatedAt: string, filters: Filters, approvedCount: nat, rejectedCount: nat,
                           inspected: nat, rate: real, completeBoxes: nat, current: V0141.BoxSummary,
                           shifts: seq<ShiftRow>, reasons: Counts,
                           recentRejected: seq<Part>, recentClosed: seq<BoxRecord>)

  /** Some argument restricts the report to a search. */
  predicate Filtering(f: Filters)
  {
    Given(f.start) || Given(f.end) || Given(f.user)
  }

  /** The search the report runs: period and operator, any status and shift. */
  function QueryOf(f: Filters): Query
  {
    Query(f.start, f.end, f.user, None, None)
  }

  /** A box whose `percentual_cheio` would divide by zero is among the ones
      the report describes: the current box or the last five closed. */
  predicate BoxesRaise(s: Stock)
  {
    var recent := KeepLast(s.closed, 5);
    s.current.capacity == 0 || exists i :: 0 <= i < |recent| && recent[i].capacity == 0
  }

  /** `gerar_relatorio(data_inicio, data_fim, usuario)`; `None` where it
      raises, in the search or on a box of capacity 0. With some argument
      given the report covers the parts found, split by their flag; with none
      it covers the two lists as they are. */
  function ReportOf(s: Stock, f: Filters, day: DayParser, now: string): (r: Option<Report>)
    ensures r.None? <==> BoxesRaise(s) || (Filtering(f) && Select(s.approved + s.rejected, QueryOf(f), day).None?)
    ensures r.Some? ==> r.value.generatedAt == now && r.value.filters == f
  {
    if BoxesRaise(s) then None
    else if Filtering(f) then
      match Select(s.approved + s.rejected, QueryOf(f), day)
      case None => None
      case Some(found) => Some(ReportOn(s, found, ApprovedOf(found), RejectedOf(found), f, now))
    else Some(ReportOn(s, s.approved + s.rejected, s.approved, s.rejected, f, now))
  }

  /** The report on the parts `all`, of which `approved` and `rejected` are
      counted as such. */
  function ReportOn(s: Stock, all: seq<Part>, approved: seq<Part>, rejected: seq<Part>, f: Filters,
                    now: string): (r: Report)
    requires !BoxesRaise(s)
    ensures r.approvedCount == |approved| && r.rejectedCount == |rejected| && r.inspected == |all|
    ensures r.completeBoxes == |s.closed| && r.generatedAt == now && r.filters == f
    ensures |r.recentRejected| == (if |rejected| <= 10 then |rejected| else 10)
  {
    var total := |all|;
    var rate := if total > 0 then Percent(|approved|, total) else 0.0;
    var c := s.current;
    Report(now, f, |approved|, |rejected|, total, rate, |s.closed|,
           V0141.BoxSummary(c.number, |c.parts|, Vacancies(c), c.capacity,
                            Percent(|c.parts|, c.capacity)),
           ShiftTable(Marks(all)), Histogram(AllReasons(rejected), Short),
           KeepLast(rejected, 10), KeepLast(s.closed, 5))
  }

  /** With some argument given and each list holding only its own verdict,
      the report counts exactly the approved parts found and the rejected
      parts found; with none it counts both lists whole. Either way the
      inspected count is the sum of the two. */
  lemma ReportCovers(s: Stock, f: Filters, day: DayParser, now: string)
    requires Flagged(s) && ReportOf(s, f, day, now).Some?
    ensures var r := ReportOf(s, f, day, now).value;
      r.inspected == r.approvedCount + r.rejectedCount && r.filters == f
      && (!Filtering(f) ==> r.approvedCount == |s.approved| && r.rejectedCount == |s.rejected|)
      && (Filtering(f) ==>
            Select(s.approved, QueryOf(f), day).Some? && Select(s.rejected, QueryOf(f), day).Some?
            && r.approvedCount == |Select(s.approved, QueryOf(f), day).value|
            && r.rejectedCount == |Select(s.rejected, QueryOf(f), day).value|
            && r.recentRejected == KeepLast(Select(s.rejected, QueryOf(f), day).value, 10))
  {
    if Filtering(f) {
      SearchSplits(s, QueryOf(f), day);
      PartitionSizes(Select(s.approved + s.rejected, QueryOf(f), day).value);
    }
  }

  /** Searching the whole ledger is searching the approved list, then the
      rejected one; with each list holding only its own verdict, the flag
      splits what was found back into the two. */
  lemma SearchSplits(s: Stock, q: Query, day: DayParser)
    requires Flagged(s) && Select(s.approved + s.rejected, q, day).Some?
    ensures Select(s.approved, q, day).Some? && Select(s.rejected, q, day).Some?
    ensures var found := Select(s.approved + s.rejected, q, day).value;
      ApprovedOf(found) == Select(s.approved, q, day).value
      && RejectedOf(found) == Select(s.rejected, q, day).value
  {
    var all := s.approved + s.rejected;
    SelectRaises(all, q, day);
    SelectRaises(s.approved, q, day);
    SelectRaises(s.rejected, q, day);
    forall i | 0 <= i < |s.approved| ensures !Raises(s.approved[i], q, day) {
      assert all[i] == s.approved[i];
    }
    forall i | 0 <= i < |s.rejected| ensures !Raises(s.rejected[i], q, day) {
      assert all[|s.approved| + i] == s.rejected[i];
    }
    var a := Select(s.approved, q, day).value;
    var b := Select(s.rejected, q, day).value;
    SelectConcat(s.approved, s.rejected, q, day);
    forall x | x in a ensures x.approved {
      SelectMembers(s.approved, q, day, x);
    }
    forall x | x in b ensures !x.approved {
      SelectMembers(s.rejected, q, day, x);
    }
    PartitionRuns(a, b);
  }

  /** The report's figures: the rate is a percentage that is 0 exactly when
      nothing is approved, the shift table counts every part once under its
      shift and verdict, and the histogram counts every reason once under the
      check it names. */
  lemma ReportConsistent(s: Stock, all: seq<Part>, approved: seq<Part>, rejected: seq<Part>, f: Filters,
                         now: string, shift: string, k: Check)
    requires !BoxesRaise(s) && |approved| + |rejected| == |all|
    ensures var r := ReportOn(s, all, approved, rejected, f, now);
      r.inspected == r.approvedCount + r.rejectedCount
      && 0.0 <= r.rate <= 100.0 && (r.rate == 0.0 <==> r.approvedCount == 0)
      && Balanced(r.shifts) && RowsTotal(r.shifts) == r.inspected
      && RowOf(r.shifts, shift) == (multiset(Marks(all))[(shift, true)], multiset(Marks(all))[(shift, false)])
      && Count(r.reasons, Label(Short, k)) == Tagged(AllReasons(rejected), Some(k))
      && Total(r.reasons) == |AllReasons(rejected)| - Tagged(AllReasons(rejected), None)
  {
    ShiftTableSums(Marks(all));
    ShiftTableCounts(Marks(all), shift);
    HistogramCounts(AllReasons(rejected), Short, k);
    if |all| > 0 {
      PercentBounds(|approved|, |all|);
    }
  }

  /** The `for peca in pecas_filtradas` loop of `gerar_relatorio`. */
  method TallyShifts(ps: seq<Part>) returns (rows: seq<ShiftRow>)
    ensures rows == ShiftTable(Marks(ps))
  {
    rows := [];
    for i := 0 to |ps|
      invariant rows == ShiftTable(Marks(ps[..i]))
    {
      assert ps[..i + 1][..i] == ps[..i];
      rows := Tick(rows, ps[i].shift, ps[i].approved);
    }
    assert ps[..|ps|] == ps;
  }

  /** The nested `for peca … for motivo …` loops of `gerar_relatorio`. */
  method TallyReasons(ps: seq<Part>) returns (h: Counts)
    ensures h == Histogram(AllReasons(ps), Short)
  {
    h := [];
    for i := 0 to |ps|
      invariant h == Histogram(AllReasons(ps[..i]), Short)
    {
      h := TallyInto(h, AllReasons(ps[..i]), ps[i].reasons, Short);
      assert ps[..i + 1][..i] == ps[..i];
    }
    assert ps[..|ps|] == ps;
  }

  // ------------------------------------------------------------------------
  // The ledger as an object

  /** `BancoDados`: the two part lists, the closed boxes and the box being filled. */
  class Ledger {
    var config: Config
    var approved: seq<Part>
    var rejected: seq<Part>
    var closed: seq<BoxRecord>
    var current: Box

    function Contents(): Stock
      reads this, current
    {
      Stock(approved, rejected, closed, current.Record())
    }

    /** `BancoDados()`, holding the ledger `carregar_dados` read. */
    constructor (config: Config, loaded: Stock)
      ensures this.config == config && Contents() == loaded
    {
      this.config := config;
      approved, rejected, closed := loaded.approved, loaded.rejected, loaded.closed;
      var c := loaded.current;
      var box := new Box(c.number, c.capacity, c.createdAt);
      box.parts, box.closedAt, box.closedBy := c.parts, c.closedAt, c.closedBy;
      current := box;
    }

    /** The rollover of `adicionar_peca` for an approved part. */
    method PackPart(v: Part, now: string)
      modifies this, current
      ensures config == old(config) && approved == old(approved) && rejected == old(rejected)
      ensures (closed, current.Record()) == Pack(old(closed), old(current.Record()), v, config.capacity, now)
    {
      var placed := current.Add(v, now);
      if !placed {
        closed := closed + [current.Record()];
        var box := new Box(|closed| + 1, config.capacity, now);
        placed := box.Add(v, now);
        current := box;
      }
      if current.IsFull() {
        closed := closed + [current.Record()];
        current := new Box(|closed| + 1, config.capacity, now);
      }
    }

    /** `adicionar_peca(peca)` at time `now`. */
    method Add(p: Part, now: string) returns (ok: bool, msg: string)
      modifies this, current
      ensures config == old(config)
      ensures (ok, Contents()) == AddPart(old(Contents()), p, config, now)
      ensures msg == if ok then "Peça adicionada com sucesso" else "ID " + p.id + " já existe no sistema"
    {
      var i := FindId(approved + rejected, p.id);
      if i >= 0 {
        return false, "ID " + p.id + " já existe no sistema";
      }
      var v := Validate(p, config.criteria);
      if v.approved {
        approved := approved + [v];
        PackPart(v, now);
      } else {
        rejected := rejected + [v];
      }
      ok, msg := true, "Peça adicionada com sucesso";
    }

    /** `editar_peca(id, novo_peso, nova_cor, novo_comprimento)` at time `now`. */
    method Edit(id: string, weight: Float, color: string, length: Float, now: string) returns (ok: bool, msg: string)
      modifies this, current
      ensures config == old(config)
      ensures (ok, Contents()) == EditKey(old(Contents()), UpperStrip(id), weight, color, length, config.criteria, now)
      ensures msg == if ok then "Peça editada com sucesso" else "Peça " + UpperStrip(id) + " não encontrada"
    {
      var key := UpperStrip(id);
      ok := EditByKey(key, weight, color, length, now);
      msg := if ok then "Peça editada com sucesso" else "Peça " + key + " não encontrada";
    }

    /** The body of `editar_peca` after the ID is normalised. */
    method EditByKey(key: string, weight: Float, color: string, length: Float, now: string) returns (ok: bool)
      modifies this, current
      ensures config == old(config)
      ensures (ok, Contents()) == EditKey(old(Contents()), key, weight, color, length, config.criteria, now)
    {
      ghost var s := Contents();
      KnownSplit(s, key);
      var i := FindId(approved, key);
      if i >= 0 {
        var e := Revised(approved[i], weight, color, length, config.criteria);
        ReviseApproved(key, e);
        return true;
      }
      var j := FindId(rejected, key);
      if j >= 0 {
        var e := Revised(rejected[j], weight, color, length, config.criteria);
        ReviseRejected(key, e, now);
        return true;
      }
      return false;
    }

    /** An approved part revised into `e`: kept in place when it still passes,
        otherwise moved to the rejected list and taken out of the open box. */
    method ReviseApproved(key: string, e: Part)
      requires FirstIndex(approved, key) >= 0
      modifies this, current
      ensures config == old(config)
      ensures Contents() == var s := old(Contents()); var i := FirstIndex(s.approved, key);
        if e.approved then s.(approved := s.approved[i := e])
        else s.(approved := WithoutFirst(s.approved, key), rejected := s.rejected + [e],
                current := s.current.(parts := WithoutFirst(s.current.parts, key)))
    {
      var i := FindId(approved, key);
      if e.approved {
        approved := approved[i := e];
      } else {
        approved := approved[..i] + approved[i + 1..];
        rejected := rejected + [e];
        current.Discard(key);
      }
    }

    /** A rejected part revised into `e`: moved to the approved list and the
        open box when it now passes, otherwise kept in place. */
    method ReviseRejected(key: string, e: Part, now: string)
      requires FirstIndex(rejected, key) >= 0
      modifies this, current
      ensures config == old(config)
      ensures Contents() == var s := old(Contents()); var j := FirstIndex(s.rejected, key);
        if e.approved then s.(approved := s.approved + [e], rejected := WithoutFirst(s.rejected, key),
                              current := Put(s.current, e, now).1)
        else s.(rejected := s.rejected[j := e])
    {
      var j := FindId(rejected, key);
      if e.approved {
        rejected := rejected[..j] + rejected[j + 1..];
        approved := approved + [e];
        var _ := current.Add(e, now);
      } else {
        rejected := rejected[j := e];
      }
    }

    /** `remover_peca(id)`. */
    method Remove(id: string) returns (ok: bool, msg: string)
      modifies this, current
      ensures config == old(config) && current == old(current)
      ensures (ok, Contents()) == RemoveKey(old(Contents()), UpperStrip(id))
      ensures msg == "Peça " + UpperStrip(id) + (if ok then " removida com sucesso" else " não encontrada")
    {
      var key := UpperStrip(id);
      ok := RemoveByKey(key);
      msg := "Peça " + key + (if ok then " removida com sucesso" else " não encontrada");
    }

    /** The body of `remover_peca` after the ID is normalised. */
    method RemoveByKey(key: string) returns (ok: bool)
      modifies this, current
      ensures config == old(config) && current == old(current)
      ensures (ok, Contents()) == RemoveKey(old(Contents()), key)
    {
      ghost var s := Contents();
      KnownSplit(s, key);
      var i := FindId(approved, key);
      if i >= 0 {
        approved := approved[..i] + approved[i + 1..];
        assert approved == WithoutFirst(s.approved, key);
        current.Discard(key);
        assert Contents() == RemoveKey(s, key).1;
        return true;
      }
      var j := FindId(rejected, key);
      if j >= 0 {
        rejected := rejected[..j] + rejected[j + 1..];
        assert Contents() == RemoveKey(s, key).1;
        return true;
      }
      return false;
    }

    /** `buscar_pecas_por_filtro`: the loop over the approved then the
        rejected parts, skipping each part some given filter rejects; `None`
        where a date check raises. */
    method Search(q: Query, day: DayParser) returns (r: Option<seq<Part>>)
      ensures r == Select(approved + rejected, q, day)
    {
      var all := approved + rejected;
      var found: seq<Part> := [];
      for i := 0 to |all|
        invariant Select(all[..i], q, day) == Some(found)
      {
        var p := all[i];
        assert all[..i + 1] == all[..i] + [p];
        assert found + [] == found;
        SelectSnoc(all[..i], p, q, day);
        if Given(q.start) && Given(q.end) {
          var dp, di, df := day(p.day), day(q.start.value), day(q.end.value);
          if dp.None? || di.None? || df.None? {
            SelectStops(all, i + 1, q, day);
            return None;
          }
          if !(di.value <= dp.value <= df.value) {
            continue;
          }
        }
        if Given(q.user) && p.user != q.user.value {
          continue;
        }
        if q.status == Some("aprovadas") && !p.approved {
          continue;
        }
        if q.status == Some("reprovadas") && p.approved {
          continue;
        }
        if Given(q.shift) && p.shift != q.shift.value {
          continue;
        }
        found := found + [p];
      }
      assert all[..|all|] == all;
      return Some(found);
    }

    /** `gerar_relatorio(data_inicio, data_fim, usuario)` at time `now`. */
    method GenerateReport(f: Filters, day: DayParser, now: string) returns (r: Option<Report>)
      ensures r == ReportOf(Contents(), f, day, now)
    {
      if BoxesRaise(Contents()) {
        return None;
      }
      var all, a, j := approved + rejected, approved, rejected;
      if Filtering(f) {
        var found := Search(QueryOf(f), day);
        if found.None? {
          return None;
        }
        all, a, j := found.value, ApprovedOf(found.value), RejectedOf(found.value);
      }
      var total := |all|;
      var rate := if total > 0 then Percent(|a|, total) else 0.0;
      var shifts := TallyShifts(all);
      var reasons := TallyReasons(j);
      var summary := V0141.BoxSummary(current.number, |current.parts|, current.FreeSlots(), current.capacity,
                                      Percent(|current.parts|, current.capacity));
      r := Some(Report(now, f, |a|, |j|, total, rate, |closed|, summary, shifts, reasons,
                       KeepLast(j, 10), KeepLast(closed, 5)));
      ghost var expected := ReportOn(Contents(), all, a, j, f, now);
      assert expected.current == summary;
      assert r.value == expected;
    }
  }

  // ------------------------------------------------------------------------
  // The user store (SistemaAutenticacao)

  /** The two levels `criar_usuario` offers and its refusal messages. */
  const CreateRules: Users.CreateRules :=
    Users.CreateRules([Users.Administrator, Users.Operator],
                      "Senha deve ter pelo menos 4 caracteres", "Nível de acesso inválido")

  /** The user store; `names` is the order the dict holds its keys in, the
      order `listar_usuarios` lists them. */
  class Accounts {
    var users: Users.Directory
    var names: seq<string>

    ghost predicate Valid()
      reads this
    {
      Users.Ordered(users, names)
    }

    /** `SistemaAutenticacao()` over the users usuarios.json yielded, in its order. */
    constructor (loaded: Users.Directory, order: seq<string>, now: string, salt: nat)
      requires Users.Ordered(loaded, order)
      ensures Valid()
      ensures users == Users.Initial(loaded, now, salt)
      ensures names == if loaded == map[] then [Users.AdminName] else order
    {
      users, names := loaded, order;
      new;
      if users == map[] {
        users := users[Users.AdminName := Users.NewUser("admin", "Administrador do Sistema", Users.Administrator, now, salt)];
        names := [Users.AdminName];
      }
    }

    /** `autenticar(usuario, senha)` at time `now`. */
    method Authenticate(name: string, password: string, now: string) returns (ok: bool, data: Option<Users.UserRecord>)
      requires Valid()
      modifies this
      ensures Valid() && names == old(names)
      ensures (ok, data, users) == Users.Login(old(users), name, password, now)
    {
      if name in users {
        var record := users[name];
        if !Users.IsActive(record) {
          return false, None;
        }
        if CheckPassword(password, record.password) {
          users := users[name := record.(lastLogin := Users.Present(Some(now)))];
          return true, Some(users[name]);
        }
      }
      return false, None;
    }

    /** `criar_usuario(usuario, senha, nome_completo, nivel)` at time `now`. */
    method CreateUser(name: string, password: string, fullName: string, level: string, now: string, salt: nat)
      returns (ok: bool, msg: string)
      requires Valid()
      modifies this
      ensures Valid()
      ensures (ok, msg, users) == Users.Create(old(users), CreateRules, name, password, fullName, level, now, salt)
      ensures names == if ok then old(names) + [name] else old(names)
    {
      if name in users {
        return false, "Usuário já existe";
      }
      if |password| < 4 {
        return false, "Senha deve ter pelo menos 4 caracteres";
      }
      if level !in [Users.Administrator, Users.Operator] {
        return false, "Nível de acesso inválido";
      }
      Users.OrderKept(users, names, name, name, Users.NewUser(password, fullName, level, now, salt));
      users := users[name := Users.NewUser(password, fullName, level, now, salt)];
      names := names + [name];
      return true, "Usuário criado com sucesso";
    }

    /** `editar_usuario(usuario_antigo, usuario_novo, nome_completo, nivel, ativo)`,
        keeping the record's history across a rename. A renamed user moves to
        the end of the order. */
    method EditUser(oldName: string, newName: string, fullName: string, level: string, active: bool)
      returns (ok: bool, msg: string)
      requires Valid()
      modifies this
      ensures Valid()
      ensures (ok, msg, users) == Users.Edit(old(users), oldName, newName, fullName, level, active)
      ensures names == if ok && oldName != newName then Users.Drop(old(names), oldName) + [newName] else old(names)
    {
      if oldName !in users {
        return false, "Usuário não encontrado";
      }
      if oldName != newName && newName in users {
        return false, "Novo nome de usuário já existe";
      }
      var prev := users[oldName];
      var record := Users.UserRecord(prev.password, fullName, level, prev.createdAt,
                                     Users.Present(Users.LastLoginOf(prev)), Users.Present(active));
      Users.OrderKept(users, names, oldName, newName, record);
      if oldName != newName {
        users := users - {oldName};
        names := Users.Drop(names, oldName);
        assert newName !in names;
        names := names + [newName];
      }
      users := users[newName := record];
      return true, "Usuário editado com sucesso";
    }

    /** `redefinir_senha(usuario, nova_senha)`. */
    method ResetPassword(name: string, password: string, salt: nat) returns (ok: bool, msg: string)
      requires Valid()
      modifies this
      ensures Valid() && names == old(names)
      ensures (ok, msg, users) == Users.ResetPassword(old(users), name, password, salt)
    {
      if name !in users {
        return false, "Usuário não encontrado";
      }
      if |password| < 4 {
        return false, "Senha deve ter pelo menos 4 caracteres";
      }
      users := users[name := users[name].(password := HashPassword(password, salt))];
      return true, "Senha redefinida com sucesso";
    }

    /** `excluir_usuario(usuario)`. */
    method RemoveUser(name: string) returns (ok: bool, msg: string)
      requires Valid()
      modifies this
      ensures Valid()
      ensures (ok, msg, users) == Users.Remove(old(users), name)
      ensures names == if ok then Users.Drop(old(names), name) else old(names)
    {
      if name !in users {
        return false, "Usuário não encontrado";
      }
      if name == Users.AdminName {
        return false, "Não é possível excluir o usuário administrador principal";
      }
      Users.OrderKept(users, names, name, name, users[name]);
      users := users - {name};
      names := Users.Drop(names, name);
      return true, "Usuário excluído com sucesso";
    }

    /** `listar_usuarios`: one entry per user, in the dict's order. */
    method ListUsers() returns (l: seq<Users.Listed>)
      requires Valid()
      ensures l == Users.Listing(users, names)
      ensures forall n :: n in users <==> exists i :: 0 <= i < |l| && l[i].name == n
    {
      l := [];
      for i := 0 to |names|
        invariant l == Users.Listing(users, names[..i])
      {
        assert names[..i + 1][..i] == names[..i];
        l := l + [Users.ListEntry(names[i], users[names[i]])];
      }
      assert names[..|names|] == names;
      forall n | n in users
        ensures exists i :: 0 <= i < |l| && l[i].name == n
      {
        var i :| 0 <= i < |names| && names[i] == n;
        assert l[i].name == n;
      }
    }
  }
}
