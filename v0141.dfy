/** Version 0.14.1 (tests/v0141-beta.py): parts validated against configured
    criteria, boxes of configurable capacity, a ledger with a duplicate-ID
    guard kept in two JSON documents, a report with per-shift and
    per-reason tallies, and a user store with active flags. */
module V0141 {
  import opened Common
  import opened Text
  import opened Json
  import opened Stats
  import opened Credentials
  import Shifts
  import Users

  // ------------------------------------------------------------------------
  // Parts (Peca)

  datatype Part = Part(id: string, weight: Float, color: string, length: Float, user: string,
                       timestamp: string, shift: string, approved: bool, reasons: seq<string>)

  /** `critérios_qualidade`: inclusive bounds and the accepted colours. */
  datatype Criteria = Criteria(weightMin: Float, weightMax: Float, colors: seq<string>,
                               lengthMin: Float, lengthMax: Float)

  /** The configuration values the engine reads (config.json after the defaults are merged in). */
  datatype Config = Config(criteria: Criteria, capacity: int)

  const DefaultCriteria: Criteria := Criteria(Float(95.0, "95"), Float(105.0, "105"), ["azul", "verde"],
                                              Float(10.0, "10"), Float(20.0, "20"))
  const DefaultCapacity: int := 10
  const DefaultConfig: Config := Config(DefaultCriteria, DefaultCapacity)

  /** `Peca(id, peso, cor, comprimento, usuario)`, inspected at time `now` in
      hour `hour`: not yet approved and with no reasons. */
  function NewPart(id: string, weight: Float, color: string, length: Float, user: string,
                   now: string, hour: int): (p: Part)
    ensures p.id == UpperStrip(id) && p.color == LowerStrip(color)
    ensures p.weight == weight && p.length == length && p.user == user && p.timestamp == now
    ensures p.shift == Shifts.ShiftOf(hour)
    ensures !p.approved && p.reasons == []
  {
    Part(UpperStrip(id), weight, LowerStrip(color), length, user, now, Shifts.ShiftOf(hour), false, [])
  }

  predicate WeightOk(p: Part, c: Criteria)
  {
    c.weightMin.value <= p.weight.value <= c.weightMax.value
  }

  predicate ColorOk(p: Part, c: Criteria)
  {
    p.color in c.colors
  }

  predicate LengthOk(p: Part, c: Criteria)
  {
    c.lengthMin.value <= p.length.value <= c.lengthMax.value
  }

  predicate Passes(p: Part, c: Criteria, k: Check)
  {
    match k
    case Weight => WeightOk(p, c)
    case Color => ColorOk(p, c)
    case Length => LengthOk(p, c)
  }

  /** The checks a part fails, in the order weight, colour, length. */
  function Failed(p: Part, c: Criteria): (ks: seq<Check>)
    ensures forall k :: k in ks <==> !Passes(p, c, k)
    ensures forall i, j :: 0 <= i < j < |ks| ==> Position(ks[i]) < Position(ks[j])
  {
    (if WeightOk(p, c) then [] else [Weight])
    + (if ColorOk(p, c) then [] else [Color])
    + (if LengthOk(p, c) then [] else [Length])
  }

  function WeightReason(p: Part, c: Criteria): string
  {
    "Peso" + (" fora do padrão: " + p.weight.repr + "g (esperado: " + c.weightMin.repr + "-" + c.weightMax.repr + "g)")
  }

  function ColorReason(p: Part, c: Criteria): string
  {
    "Cor" + (" não aprovada: " + p.color + " (esperado: " + Join(c.colors, ", ") + ")")
  }

  function LengthReason(p: Part, c: Criteria): string
  {
    "Comprimento" + (" fora do padrão: " + p.length.repr + "cm (esperado: " + c.lengthMin.repr + "-" + c.lengthMax.repr + "cm)")
  }

  function Reason(p: Part, c: Criteria, k: Check): string
  {
    match k
    case Weight => WeightReason(p, c)
    case Color => ColorReason(p, c)
    case Length => LengthReason(p, c)
  }

  /** `validar`: one reason per failed check, in check order; the part is
      approved exactly when it fails none. Nothing else about it changes. */
  function Validate(p: Part, c: Criteria): (r: Part)
    ensures r == p.(approved := r.approved, reasons := r.reasons)
    ensures r.approved <==> WeightOk(p, c) && ColorOk(p, c) && LengthOk(p, c)
    ensures r.approved <==> r.reasons == []
    ensures |r.reasons| == |Failed(p, c)|
    ensures forall i :: 0 <= i < |r.reasons| ==> r.reasons[i] == Reason(p, c, Failed(p, c)[i])
  {
    var reasons := (if WeightOk(p, c) then [] else [WeightReason(p, c)])
                   + (if ColorOk(p, c) then [] else [ColorReason(p, c)])
                   + (if LengthOk(p, c) then [] else [LengthReason(p, c)]);
    p.(approved := reasons == [], reasons := reasons)
  }

  /** The criteria print without a 'P' or 'C' of their own, as numbers and
      lower-case colour names do. */
  predicate PlainCriteria(c: Criteria)
  {
    Plain(c.weightMin.repr) && Plain(c.weightMax.repr) && Plain(c.lengthMin.repr) && Plain(c.lengthMax.repr)
    && forall i :: 0 <= i < |c.colors| ==> Lacks(c.colors[i], 'P')
  }

  /** Every reason `validar` writes names its check, so that the report's
      substring test files it under that same check. */
  lemma ReasonsClassified(p: Part, c: Criteria, k: Check)
    requires PlainCriteria(c) && Plain(p.weight.repr) && Plain(p.length.repr) && IsLower(p.color)
    ensures Classify(Reason(p, c, k)) == Some(k)
  {
    match k
    case Weight =>
      WeightReasonClassified(" fora do padrão: " + p.weight.repr + "g (esperado: " + c.weightMin.repr + "-" + c.weightMax.repr + "g)");
    case Color =>
      LowerLacks(p.color, 'P');
      JoinLacks(c.colors, ", ", 'P');
      ColorReasonClassified(" não aprovada: " + p.color + " (esperado: " + Join(c.colors, ", ") + ")");
    case Length =>
      LengthReasonClassified(" fora do padrão: " + p.length.repr + "cm (esperado: " + c.lengthMin.repr + "-" + c.lengthMax.repr + "cm)");
  }

  // ------------------------------------------------------------------------
  // Boxes (Caixa)

  /** A box as a value: what the ledger archives and what to_dict writes. */
  datatype BoxRecord = BoxRecord(number: int, capacity: int, parts: seq<Part>,
                                 closedAt: Option<string>, closedBy: string, createdAt: string)

  /** `esta_cheia`. */
  predicate Full(b: BoxRecord)
  {
    |b.parts| >= b.capacity
  }

  /** `vagas_disponiveis`: the free slots, never negative. */
  function Vacancies(b: BoxRecord): (v: nat)
    ensures v == 0 <==> Full(b)
    ensures v > 0 ==> |b.parts| + v == b.capacity
  {
    if b.capacity > |b.parts| then b.capacity - |b.parts| else 0
  }

  /** `Caixa(numero, capacidade)` created at `now`. */
  function EmptyBox(number: int, capacity: int, now: string): (b: BoxRecord)
    ensures b.parts == [] && b.closedAt.None? && b.closedBy == ""
  {
    BoxRecord(number, capacity, [], None, "", now)
  }

  /** `Caixa.adicionar_peca` at time `now`: below capacity the part is appended
      and the box is stamped closed by the part's operator exactly when that
      fills it; a full box refuses the part and stays as it was. */
  function Put(b: BoxRecord, p: Part, now: string): (r: (bool, BoxRecord))
    ensures r.0 <==> |b.parts| < b.capacity
    ensures !r.0 ==> r.1 == b
    ensures r.0 ==> r.1.parts == b.parts + [p] && r.1.number == b.number
                    && r.1.capacity == b.capacity && r.1.createdAt == b.createdAt
    ensures r.0 && Full(r.1) ==> r.1.closedAt == Some(now) && r.1.closedBy == p.user
    ensures r.0 && !Full(r.1) ==> r.1.closedAt == b.closedAt && r.1.closedBy == b.closedBy
  {
    if |b.parts| < b.capacity then
      var b' := b.(parts := b.parts + [p]);
      if |b'.parts| >= b'.capacity then (true, b'.(closedAt := Some(now), closedBy := p.user))
      else (true, b')
    else (false, b)
  }

  class Box {
    var number: int
    var capacity: int
    var parts: seq<Part>
    var closedAt: Option<string>
    var closedBy: string
    var createdAt: string

    constructor (number: int, capacity: int, now: string)
      ensures Record() == EmptyBox(number, capacity, now)
    {
      this.number := number;
      this.capacity := capacity;
      parts := [];
      closedAt := None;
      closedBy := "";
      createdAt := now;
    }

    function Record(): BoxRecord
      reads this
    {
      BoxRecord(number, capacity, parts, closedAt, closedBy, createdAt)
    }

    predicate IsFull()
      reads this
    {
      Full(Record())
    }

    function FreeSlots(): nat
      reads this
    {
      Vacancies(Record())
    }

    /** `adicionar_peca`. */
    method Add(p: Part, now: string) returns (ok: bool)
      modifies this
      ensures (ok, Record()) == Put(old(Record()), p, now)
    {
      if |parts| < capacity {
        parts := parts + [p];
        if |parts| >= capacity {
          Close(p.user, now);
        }
        ok := true;
      } else {
        ok := false;
      }
    }

    /** `fechar`: stamps the closing time and operator. */
    method Close(user: string, now: string)
      modifies this
      ensures Record() == old(Record()).(closedAt := Some(now), closedBy := user)
    {
      closedAt := Some(now);
      closedBy := user;
    }

    /** The inner loop of `remover_peca`: deletes the first part with this ID, if any. */
    method Discard(id: string)
      modifies this
      ensures Record() == old(Record()).(parts := WithoutFirst(old(parts), id))
    {
      var j := FindId(parts, id);
      if j >= 0 {
        parts := parts[..j] + parts[j + 1..];
      }
    }
  }

  /** The position of the first part with this ID, or -1. */
  function FirstIndex(ps: seq<Part>, id: string): (r: int)
    ensures -1 <= r < |ps|
    ensures r == -1 <==> forall i :: 0 <= i < |ps| ==> ps[i].id != id
    ensures r >= 0 ==> ps[r].id == id && forall i :: 0 <= i < r ==> ps[i].id != id
  {
    if ps == [] then -1
    else if ps[0].id == id then 0
    else var r := FirstIndex(ps[1..], id); if r == -1 then -1 else r + 1
  }

  /** `for i, p in enumerate(ps): if p.id_peca == id: …`. */
  method FindId(ps: seq<Part>, id: string) returns (r: int)
    ensures r == FirstIndex(ps, id)
  {
    r := 0;
    while r < |ps|
      invariant 0 <= r <= |ps|
      invariant forall i :: 0 <= i < r ==> ps[i].id != id
    {
      if ps[r].id == id {
        return;
      }
      r := r + 1;
    }
    r := -1;
  }

  /** The list without the first part carrying this ID (the list itself when none does). */
  function WithoutFirst(ps: seq<Part>, id: string): (r: seq<Part>)
    ensures FirstIndex(ps, id) == -1 ==> r == ps
    ensures FirstIndex(ps, id) >= 0 ==>
              |r| == |ps| - 1 && r == ps[..FirstIndex(ps, id)] + ps[FirstIndex(ps, id) + 1..]
  {
    var j := FirstIndex(ps, id);
    if j >= 0 then ps[..j] + ps[j + 1..] else ps
  }

  // ------------------------------------------------------------------------
  // The ledger (BancoDados): packing, adding and removing parts

  /** What the ledger holds, as a value: the two part lists, the closed boxes
      and the box being filled. */
  datatype Stock = Stock(approved: seq<Part>, rejected: seq<Part>, closed: seq<BoxRecord>, current: BoxRecord)

  /** The parts of a run of boxes, box after box. */
  function PartsOf(boxes: seq<BoxRecord>): seq<Part>
  {
    if boxes == [] then [] else PartsOf(boxes[..|boxes| - 1]) + boxes[|boxes| - 1].parts
  }

  lemma PartsOfAppend(boxes: seq<BoxRecord>, b: BoxRecord)
    ensures PartsOf(boxes + [b]) == PartsOf(boxes) + b.parts
  {
    assert (boxes + [b])[..|boxes|] == boxes;
  }

  /** Every packed part: the closed boxes' parts, then the current box's. */
  function Packed(closed: seq<BoxRecord>, current: BoxRecord): seq<Part>
  {
    PartsOf(closed) + current.parts
  }

  /** The rollover in `adicionar_peca` for an approved part: put it in the
      current box; if that refuses, archive the box, open box number
      len(closed) + 1 with the configured capacity and put it there; then, if
      the current box is full, archive it and open the next one. It archives at
      most two boxes and rewrites no closed one. */
  function Pack(closed: seq<BoxRecord>, current: BoxRecord, p: Part, capacity: int, now: string)
    : (r: (seq<BoxRecord>, BoxRecord))
    ensures |closed| <= |r.0| <= |closed| + 2 && r.0[..|closed|] == closed
  {
    var first := Put(current, p, now);
    var closed1 := if first.0 then closed else closed + [current];
    var cur1 := if first.0 then first.1 else Put(EmptyBox(|closed1| + 1, capacity, now), p, now).1;
    if Full(cur1) then (closed1 + [cur1], EmptyBox(|closed1| + 2, capacity, now)) else (closed1, cur1)
  }

  /** With a capacity of at least 1 the part ends up behind every packed part
      and the box left open is not full; a box opened on the way carries the
      next number and the configured capacity. */
  lemma PackSpec(closed: seq<BoxRecord>, current: BoxRecord, p: Part, capacity: int, now: string)
    ensures var r := Pack(closed, current, p, capacity, now);
      (r.0 == closed ==> r.1 == Put(current, p, now).1)
      && (r.0 != closed ==> r.1.number == |r.0| + 1 && r.1.capacity == capacity)
      && (capacity >= 1 ==> !Full(r.1) && Packed(r.0, r.1) == Packed(closed, current) + [p])
  {
    var first := Put(current, p, now);
    var closed1 := if first.0 then closed else closed + [current];
    PartsOfAppend(closed, current);
    var cur1 := if first.0 then first.1 else Put(EmptyBox(|closed1| + 1, capacity, now), p, now).1;
    PartsOfAppend(closed1, cur1);
    assert (closed1 + [cur1])[..|closed|] == closed;
  }

  /** With no room anywhere (a capacity below 1 and a full current box), an
      approved part goes into no box, and two empty boxes are archived. */
  lemma PackWithoutCapacity(closed: seq<BoxRecord>, current: BoxRecord, p: Part, capacity: int, now: string)
    requires capacity < 1 && Full(current)
    ensures var r := Pack(closed, current, p, capacity, now);
      r.0 == closed + [current, EmptyBox(|closed| + 2, capacity, now)]
      && Packed(r.0, r.1) == Packed(closed, current)
  {
    PartsOfAppend(closed, current);
    PartsOfAppend(closed + [current], EmptyBox(|closed| + 2, capacity, now));
    assert closed + [current] + [EmptyBox(|closed| + 2, capacity, now)]
        == closed + [current, EmptyBox(|closed| + 2, capacity, now)];
  }

  /** A part with this ID is already approved or rejected. */
  predicate Known(s: Stock, id: string)
  {
    FirstIndex(s.approved + s.rejected, id) >= 0
  }

  /** `adicionar_peca`: a duplicate ID is refused and nothing changes; any
      other part is validated against the configured criteria and appended to
      exactly one of the two lists, the approved one exactly when it passes,
      and an approved part is packed. */
  function AddPart(s: Stock, p: Part, config: Config, now: string): (r: (bool, Stock))
    ensures r.0 <==> !Known(s, p.id)
    ensures !r.0 ==> r.1 == s
    ensures r.0 && Validate(p, config.criteria).approved ==>
              r.1.approved == s.approved + [Validate(p, config.criteria)] && r.1.rejected == s.rejected
              && (r.1.closed, r.1.current) == Pack(s.closed, s.current, Validate(p, config.criteria), config.capacity, now)
    ensures r.0 && !Validate(p, config.criteria).approved ==>
              r.1 == s.(rejected := s.rejected + [Validate(p, config.criteria)])
  {
    if Known(s, p.id) then (false, s)
    else
      var v := Validate(p, config.criteria);
      if v.approved then
        var packed := Pack(s.closed, s.current, v, config.capacity, now);
        (true, Stock(s.approved + [v], s.rejected, packed.0, packed.1))
      else (true, s.(rejected := s.rejected + [v]))
  }

  /** `remover_peca` once the ID is normalised: the key is looked up among
      the approved parts first (deleting the first match there and that key's
      first occurrence in the current box) and then among the rejected ones;
      closed boxes never change and an unknown key changes nothing. */
  function RemoveKey(s: Stock, key: string): (r: (bool, Stock))
    ensures r.1.closed == s.closed
    ensures r.0 <==> Known(s, key)
    ensures !r.0 ==> r.1 == s
    ensures FirstIndex(s.approved, key) >= 0 ==>
              r.1 == s.(approved := WithoutFirst(s.approved, key),
                        current := s.current.(parts := WithoutFirst(s.current.parts, key)))
    ensures FirstIndex(s.approved, key) < 0 ==> r.1 == s.(rejected := WithoutFirst(s.rejected, key))
  {
    KnownSplit(s, key);
    if FirstIndex(s.approved, key) >= 0 then
      (true, s.(approved := WithoutFirst(s.approved, key),
                current := s.current.(parts := WithoutFirst(s.current.parts, key))))
    else if FirstIndex(s.rejected, key) >= 0 then
      (true, s.(rejected := WithoutFirst(s.rejected, key)))
    else (false, s)
  }

  /** `remover_peca(id)`: the ID is normalised as the part constructor does. */
  function RemovePart(s: Stock, id: string): (r: (bool, Stock))
    ensures r.0 <==> Known(s, UpperStrip(id))
    ensures !r.0 ==> r.1 == s
    ensures r.1.closed == s.closed
  {
    RemoveKey(s, UpperStrip(id))
  }

  lemma KnownSplit(s: Stock, id: string)
    ensures Known(s, id) <==> FirstIndex(s.approved, id) >= 0 || FirstIndex(s.rejected, id) >= 0
  {
    var all := s.approved + s.rejected;
    if FirstIndex(s.approved, id) >= 0 {
      assert all[FirstIndex(s.approved, id)].id == id;
    }
    if FirstIndex(s.rejected, id) >= 0 {
      assert all[|s.approved| + FirstIndex(s.rejected, id)].id == id;
    }
    if FirstIndex(all, id) >= 0 {
      var k := FirstIndex(all, id);
      if k >= |s.approved| {
        assert s.rejected[k - |s.approved|].id == id;
      }
    }
  }

  lemma {:induction false} FirstIndexAppend(ps: seq<Part>, q: Part, id: string)
    requires FirstIndex(ps, id) < 0 && q.id == id
    ensures FirstIndex(ps + [q], id) == |ps|
  {
    if ps != [] {
      assert (ps + [q])[1..] == ps[1..] + [q];
      FirstIndexAppend(ps[1..], q, id);
    }
  }

  /** Removing a part that was just added and rejected takes the ledger back
      to what it was before the add. */
  lemma RemoveUndoesRejectedAdd(s: Stock, p: Part, config: Config, now: string)
    requires !Known(s, p.id) && !Validate(p, config.criteria).approved && p.id == UpperStrip(p.id)
    ensures RemovePart(AddPart(s, p, config, now).1, p.id) == (true, s)
  {
    var v := Validate(p, config.criteria);
    var t := AddPart(s, p, config, now).1;
    assert t == s.(rejected := s.rejected + [v]);
    KnownSplit(s, p.id);
    FirstIndexAppend(s.rejected, v, p.id);
    assert WithoutFirst(t.rejected, p.id) == s.rejected by {
      assert (s.rejected + [v])[..|s.rejected|] == s.rejected;
    }
  }

  /** Each list holds only parts with its own verdict. */
  predicate Flagged(s: Stock)
  {
    (forall i :: 0 <= i < |s.approved| ==> s.approved[i].approved)
    && (forall i :: 0 <= i < |s.rejected| ==> !s.rejected[i].approved)
  }

  /** Adding keeps each list to its verdict, never rewrites a closed box,
      and with a capacity of at least 1 keeps room in the current box and
      packs exactly the newly approved part. */
  lemma AddKeepsStock(s: Stock, p: Part, config: Config, now: string)
    requires Flagged(s)
    ensures var r := AddPart(s, p, config, now).1;
      Flagged(r) && |s.closed| <= |r.closed| && r.closed[..|s.closed|] == s.closed
      && (config.capacity >= 1 && !Full(s.current) ==>
            !Full(r.current)
            && Packed(r.closed, r.current) ==
               Packed(s.closed, s.current) + (if |r.approved| > |s.approved| then [Validate(p, config.criteria)] else []))
  {
    var v := Validate(p, config.criteria);
    if !Known(s, p.id) && v.approved {
      PackSpec(s.closed, s.current, v, config.capacity, now);
    } else {
      assert s.closed[..|s.closed|] == s.closed;
    }
  }

  /** Removing keeps each list to its verdict. */
  lemma RemoveKeepsFlagged(s: Stock, key: string)
    requires Flagged(s)
    ensures Flagged(RemoveKey(s, key).1)
  {
    var r := RemoveKey(s, key).1;
    if FirstIndex(s.approved, key) >= 0 {
      var j := FirstIndex(s.approved, key);
      assert r.approved == s.approved[..j] + s.approved[j + 1..];
      forall i | 0 <= i < |r.approved| ensures r.approved[i].approved {
        if i < j { assert r.approved[i] == s.approved[i]; } else { assert r.approved[i] == s.approved[i + 1]; }
      }
    } else if FirstIndex(s.rejected, key) >= 0 {
      var j := FirstIndex(s.rejected, key);
      assert r.rejected == s.rejected[..j] + s.rejected[j + 1..];
      forall i | 0 <= i < |r.rejected| ensures !r.rejected[i].approved {
        if i < j { assert r.rejected[i] == s.rejected[i]; } else { assert r.rejected[i] == s.rejected[i + 1]; }
      }
    }
  }

  // ------------------------------------------------------------------------
  // Persistence: pecas.json and caixas.json as documents

  /** `Peca.to_dict`. */
  function EncodePart(p: Part): Value
  {
    Obj(map["id" := Str(p.id), "peso" := Real(p.weight), "cor" := Str(p.color),
             "comprimento" := Real(p.length), "usuario" := Str(p.user), "timestamp" := Str(p.timestamp),
             "turno" := Str(p.shift), "aprovada" := Bool(p.approved),
             "motivos_reprovacao" := StrList(p.reasons)])
  }

  function EncodeParts(ps: seq<Part>): (vs: seq<Value>)
    ensures |vs| == |ps|
  {
    if ps == [] then [] else EncodeParts(ps[..|ps| - 1]) + [EncodePart(ps[|ps| - 1])]
  }

  /** `Caixa.to_dict`, without the derived `percentual_cheio`. */
  function EncodeBox(b: BoxRecord): Value
  {
    Obj(map["numero" := Int(b.number), "capacidade" := Int(b.capacity), "pecas" := Arr(EncodeParts(b.parts)),
             "data_fechamento" := OptStr(b.closedAt), "usuario_fechamento" := Str(b.closedBy),
             "data_criacao" := Str(b.createdAt), "quantidade_pecas" := Int(|b.parts|)])
  }

  function EncodeBoxes(bs: seq<BoxRecord>): (vs: seq<Value>)
    ensures |vs| == |bs|
  {
    if bs == [] then [] else EncodeBoxes(bs[..|bs| - 1]) + [EncodeBox(bs[|bs| - 1])]
  }

  /** The document `salvar_dados` writes to pecas.json. */
  function PartsDocument(s: Stock, now: string): (d: Value)
  {
    Obj(map["aprovadas" := Arr(EncodeParts(s.approved)), "reprovadas" := Arr(EncodeParts(s.rejected)),
             "ultima_atualizacao" := Str(now)])
  }

  /** The document `salvar_dados` writes to caixas.json. */
  function BoxesDocument(s: Stock, now: string): (d: Value)
  {
    Obj(map["fechadas" := Arr(EncodeBoxes(s.closed)), "atual" := EncodeBox(s.current),
             "ultima_atualizacao" := Str(now)])
  }

  /** `to_dict` divides by each box's capacity for `percentual_cheio`, so the
      boxes document can be built only when no capacity is 0. */
  predicate BoxesEncodable(s: Stock)
  {
    s.current.capacity != 0 && forall i :: 0 <= i < |s.closed| ==> s.closed[i].capacity != 0
  }

  /** The part `carregar_dados` rebuilds from one dict: the constructor
      normalises the ID and colour again, and the stored approval, timestamp
      and shift are put back; the reasons are read back only for the
      rejected list. */
  function DecodePart(v: Value, withReasons: bool): (r: Option<Part>)
    ensures r.Some? <==> StoredPart(v, withReasons).Some?
    ensures r.Some? ==> Canonical(r.value, withReasons)
  {
    match StoredPart(v, withReasons)
    case None => None
    case Some(p) => Some(p.(id := UpperStrip(p.id), color := LowerStrip(p.color)))
  }

  /** The fields of a stored part, as they are in the dict. */
  function StoredPart(v: Value, withReasons: bool): (r: Option<Part>)
    ensures r.Some? && !withReasons ==> r.value.reasons == []
    ensures r.Some? ==> Get(v, "id") == Some(Str(r.value.id)) && Get(v, "cor") == Some(Str(r.value.color))
                        && Get(v, "peso") == Some(Real(r.value.weight))
                        && Get(v, "comprimento") == Some(Real(r.value.length))
                        && Get(v, "aprovada") == Some(Bool(r.value.approved))
  {
    var id := GetStr(v, "id");
    var weight := GetReal(v, "peso");
    var color := GetStr(v, "cor");
    var length := GetReal(v, "comprimento");
    var user := GetStrOr(v, "usuario", "");
    var approved := GetBool(v, "aprovada");
    var reasons := if withReasons then StoredReasons(v) else Some([]);
    var timestamp := GetStrOr(v, "timestamp", "");
    var shift := GetStrOr(v, "turno", "");
    if id.Some? && weight.Some? && color.Some? && length.Some? && user.Some? && approved.Some?
       && reasons.Some? && timestamp.Some? && shift.Some?
    then Some(Part(id.value, weight.value, color.value, length.value, user.value,
                   timestamp.value, shift.value, approved.value, reasons.value))
    else None
  }

  /** `p_dict.get('motivos_reprovacao', [])`. */
  function StoredReasons(v: Value): Option<seq<string>>
  {
    match Get(v, "motivos_reprovacao")
    case None => Some([])
    case Some(Arr(xs)) => AsStrList(xs)
    case Some(_) => None
  }

  /** The parts a decoding loop appends before its first failure, and whether
      it got through the whole list. */
  function DecodeParts(vs: seq<Value>, withReasons: bool): (r: (seq<Part>, bool))
    ensures |r.0| <= |vs|
  {
    if vs == [] then ([], true)
    else
      var init := DecodeParts(vs[..|vs| - 1], withReasons);
      if !init.1 then init
      else match DecodePart(vs[|vs| - 1], withReasons)
        case None => (init.0, false)
        case Some(p) => (init.0 + [p], true)
  }

  /** The closed box `carregar_dados` rebuilds from one dict; a missing
      capacity falls back to the configured one. */
  function DecodeBox(v: Value, capacity: int): Option<BoxRecord>
  {
    var cap := GetIntOr(v, "capacidade", capacity);
    var number := GetInt(v, "numero");
    var closedAt := GetOptStr(v, "data_fechamento");
    var closedBy := GetStrOr(v, "usuario_fechamento", "");
    var createdAt := GetStrOr(v, "data_criacao", "");
    var items := ItemsOf(Get(v, "pecas"));
    if cap.Some? && number.Some? && closedAt.Some? && closedBy.Some? && createdAt.Some? && items.Some?
       && DecodeParts(items.value, false).1
    then Some(BoxRecord(number.value, cap.value, DecodeParts(items.value, false).0, closedAt.value,
                        closedBy.value, createdAt.value))
    else None
  }

  function DecodeBoxes(vs: seq<Value>, capacity: int): (r: (seq<BoxRecord>, bool))
  {
    if vs == [] then ([], true)
    else
      var init := DecodeBoxes(vs[..|vs| - 1], capacity);
      if !init.1 then init
      else match DecodeBox(vs[|vs| - 1], capacity)
        case None => (init.0, false)
        case Some(b) => (init.0 + [b], true)
  }

  /** The two part lists after `carregar_dados` read pecas.json: both are
      cleared, then refilled until the first entry that does not decode. */
  function LoadParts(d: Value): (r: (seq<Part>, seq<Part>))
    ensures !d.Obj? ==> r == ([], [])
  {
    var a := ItemsOf(Get(d, "aprovadas"));
    if !d.Obj? || a.None? then ([], [])
    else
      var approved := DecodeParts(a.value, false);
      var r := ItemsOf(Get(d, "reprovadas"));
      if !approved.1 || r.None? then (approved.0, [])
      else (approved.0, DecodeParts(r.value, true).0)
  }

  /** The closed boxes and the current box after `carregar_dados` read
      caixas.json. The current box is rebuilt as a new box (so it is open and
      carries the load time as its creation date) with the stored number,
      capacity and parts; when decoding fails before it is rebuilt, the
      previous current box stays. */
  function LoadBoxes(d: Value, capacity: int, current: BoxRecord, now: string): (r: (seq<BoxRecord>, BoxRecord))
    ensures !d.Obj? ==> r == ([], current)
    ensures r.1 == current || (r.1.closedAt.None? && r.1.createdAt == now)
  {
    var f := ItemsOf(Get(d, "fechadas"));
    if !d.Obj? || f.None? then ([], current)
    else
      var closed := DecodeBoxes(f.value, capacity);
      if !closed.1 then (closed.0, current)
      else (closed.0, LoadCurrent(Get(d, "atual").GetOr(Obj(map[])), capacity, |closed.0|, current, now))
  }

  /** The current box rebuilt from `atual` once `closedCount` boxes are closed. */
  function LoadCurrent(atual: Value, capacity: int, closedCount: nat, current: BoxRecord, now: string)
    : (r: BoxRecord)
    ensures !atual.Obj? ==> r == current
    ensures r == current || (r.closedAt.None? && r.createdAt == now)
    ensures atual.Obj? && "numero" !in atual.fields && "capacidade" !in atual.fields ==>
              r.number == closedCount + 1 && r.capacity == capacity
  {
    var cap := GetIntOr(atual, "capacidade", capacity);
    var number := GetIntOr(atual, "numero", closedCount + 1);
    if !atual.Obj? || cap.None? || number.None? then current
    else
      var box := EmptyBox(number.value, cap.value, now);
      var items := ItemsOf(Get(atual, "pecas"));
      if items.None? then box else box.(parts := DecodeParts(items.value, false).0)
  }

  /** A part as the constructor would rebuild it: normalised ID and colour,
      and no stored reasons where none are read back. */
  predicate Canonical(p: Part, withReasons: bool)
  {
    IsUpper(p.id) && IsStripped(p.id) && IsLower(p.color) && IsStripped(p.color)
    && (withReasons || p.reasons == [])
  }

  lemma PartRoundTrip(p: Part, withReasons: bool)
    requires Canonical(p, withReasons)
    ensures DecodePart(EncodePart(p), withReasons) == Some(p)
  {
    StoredPartRoundTrip(p, withReasons);
    UpperStripFixed(p.id);
    LowerStripFixed(p.color);
  }

  lemma StoredPartRoundTrip(p: Part, withReasons: bool)
    requires withReasons || p.reasons == []
    ensures StoredPart(EncodePart(p), withReasons) == Some(p)
  {
    var e := EncodePart(p);
    EncodedPart(p);
    StrListRoundTrip(p.reasons);
    assert StoredReasons(e) == Some(p.reasons);
    assert GetStr(e, "id") == Some(p.id) && GetStr(e, "cor") == Some(p.color);
    assert GetReal(e, "peso") == Some(p.weight) && GetReal(e, "comprimento") == Some(p.length);
    assert GetStrOr(e, "usuario", "") == Some(p.user) && GetBool(e, "aprovada") == Some(p.approved);
    assert GetStrOr(e, "timestamp", "") == Some(p.timestamp) && GetStrOr(e, "turno", "") == Some(p.shift);
  }

  /** What the loader reads back from the dict of a part. */
  lemma EncodedPart(p: Part)
    ensures var e := EncodePart(p);
      e.Obj? && Get(e, "id") == Some(Str(p.id)) && Get(e, "peso") == Some(Real(p.weight))
      && Get(e, "cor") == Some(Str(p.color)) && Get(e, "comprimento") == Some(Real(p.length))
    ensures var e := EncodePart(p);
      Get(e, "usuario") == Some(Str(p.user)) && Get(e, "timestamp") == Some(Str(p.timestamp))
      && Get(e, "turno") == Some(Str(p.shift)) && Get(e, "aprovada") == Some(Bool(p.approved))
      && Get(e, "motivos_reprovacao") == Some(StrList(p.reasons))
  {
  }

  lemma {:induction false} PartsRoundTrip(ps: seq<Part>, withReasons: bool)
    requires forall i :: 0 <= i < |ps| ==> Canonical(ps[i], withReasons)
    ensures DecodeParts(EncodeParts(ps), withReasons) == (ps, true)
  {
    if ps != [] {
      var init := ps[..|ps| - 1];
      var vs := EncodeParts(ps);
      assert vs[..|vs| - 1] == EncodeParts(init);
      PartsRoundTrip(init, withReasons);
      PartRoundTrip(ps[|ps| - 1], withReasons);
      SplitLast(ps);
    }
  }

  predicate BoxCanonical(b: BoxRecord)
  {
    forall i :: 0 <= i < |b.parts| ==> Canonical(b.parts[i], false)
  }

  lemma BoxRoundTrip(b: BoxRecord, capacity: int)
    requires BoxCanonical(b)
    ensures DecodeBox(EncodeBox(b), capacity) == Some(b)
  {
    var e := EncodeBox(b);
    EncodedBox(b);
    assert GetIntOr(e, "capacidade", capacity) == Some(b.capacity);
    assert GetInt(e, "numero") == Some(b.number);
    assert GetOptStr(e, "data_fechamento") == Some(b.closedAt);
    assert GetStrOr(e, "usuario_fechamento", "") == Some(b.closedBy);
    assert GetStrOr(e, "data_criacao", "") == Some(b.createdAt);
    assert ItemsOf(Get(e, "pecas")) == Some(EncodeParts(b.parts));
    PartsRoundTrip(b.parts, false);
  }

  /** What the loader reads back from the dict of a box. */
  lemma EncodedBox(b: BoxRecord)
    ensures var e := EncodeBox(b);
      e.Obj? && Get(e, "numero") == Some(Int(b.number)) && Get(e, "capacidade") == Some(Int(b.capacity))
      && Get(e, "pecas") == Some(Arr(EncodeParts(b.parts)))
    ensures var e := EncodeBox(b);
      Get(e, "data_fechamento") == Some(OptStr(b.closedAt)) && Get(e, "usuario_fechamento") == Some(Str(b.closedBy))
      && Get(e, "data_criacao") == Some(Str(b.createdAt))
  {
  }

  lemma {:induction false} BoxesRoundTrip(bs: seq<BoxRecord>, capacity: int)
    requires forall i :: 0 <= i < |bs| ==> BoxCanonical(bs[i])
    ensures DecodeBoxes(EncodeBoxes(bs), capacity) == (bs, true)
  {
    if bs != [] {
      var init := bs[..|bs| - 1];
      var vs := EncodeBoxes(bs);
      assert vs[..|vs| - 1] == EncodeBoxes(init);
      BoxesRoundTrip(init, capacity);
      BoxRoundTrip(bs[|bs| - 1], capacity);
      SplitLast(bs);
    }
  }

  /** Every part in the ledger reads back as itself: approved and packed parts
      carry no reasons, and IDs and colours are normalised. */
  predicate StockCanonical(s: Stock)
  {
    (forall i :: 0 <= i < |s.approved| ==> Canonical(s.approved[i], false))
    && (forall i :: 0 <= i < |s.rejected| ==> Canonical(s.rejected[i], true))
    && (forall i :: 0 <= i < |s.closed| ==> BoxCanonical(s.closed[i]))
    && BoxCanonical(s.current)
  }

  /** The keys `salvar_dados` writes: both part lists and the save time in
      pecas.json; the closed boxes, the open box and the save time in
      caixas.json. */
  lemma DocumentFields(s: Stock, now: string)
    ensures ItemsOf(Get(PartsDocument(s, now), "aprovadas")) == Some(EncodeParts(s.approved))
    ensures ItemsOf(Get(PartsDocument(s, now), "reprovadas")) == Some(EncodeParts(s.rejected))
    ensures Get(PartsDocument(s, now), "ultima_atualizacao") == Some(Str(now))
    ensures ItemsOf(Get(BoxesDocument(s, now), "fechadas")) == Some(EncodeBoxes(s.closed))
    ensures Get(BoxesDocument(s, now), "atual") == Some(EncodeBox(s.current))
    ensures Get(BoxesDocument(s, now), "ultima_atualizacao") == Some(Str(now))
  {
  }

  /** Loading what was saved restores both part lists exactly. */
  lemma PartsDocumentRoundTrip(s: Stock, saved: string)
    requires forall i :: 0 <= i < |s.approved| ==> Canonical(s.approved[i], false)
    requires forall i :: 0 <= i < |s.rejected| ==> Canonical(s.rejected[i], true)
    ensures LoadParts(PartsDocument(s, saved)) == (s.approved, s.rejected)
  {
    var d := PartsDocument(s, saved);
    assert ItemsOf(Get(d, "aprovadas")) == Some(EncodeParts(s.approved));
    assert ItemsOf(Get(d, "reprovadas")) == Some(EncodeParts(s.rejected));
    PartsRoundTrip(s.approved, false);
    PartsRoundTrip(s.rejected, true);
  }

  /** Loading what was saved restores every closed box exactly, and the
      current box's number, capacity and parts; the current box comes back
      open, created at load time. */
  lemma BoxesDocumentRoundTrip(s: Stock, capacity: int, previous: BoxRecord, saved: string, now: string)
    requires forall i :: 0 <= i < |s.closed| ==> BoxCanonical(s.closed[i])
    requires BoxCanonical(s.current)
    ensures LoadBoxes(BoxesDocument(s, saved), capacity, previous, now)
         == (s.closed, s.current.(closedAt := None, closedBy := "", createdAt := now))
  {
    var d := BoxesDocument(s, saved);
    assert Get(d, "fechadas") == Some(Arr(EncodeBoxes(s.closed)));
    assert Get(d, "atual") == Some(EncodeBox(s.current));
    BoxesRoundTrip(s.closed, capacity);
    CurrentRoundTrip(s.current, capacity, |s.closed|, previous, now);
  }

  lemma CurrentRoundTrip(b: BoxRecord, capacity: int, closedCount: nat, previous: BoxRecord, now: string)
    requires BoxCanonical(b)
    ensures LoadCurrent(EncodeBox(b), capacity, closedCount, previous, now)
         == b.(closedAt := None, closedBy := "", createdAt := now)
  {
    var atual := EncodeBox(b);
    EncodedBox(b);
    assert GetIntOr(atual, "capacidade", capacity) == Some(b.capacity);
    assert GetIntOr(atual, "numero", closedCount + 1) == Some(b.number);
    assert ItemsOf(Get(atual, "pecas")) == Some(EncodeParts(b.parts));
    PartsRoundTrip(b.parts, false);
  }

  lemma {:induction false} DecodePartsStops(vs: seq<Value>, i: nat, withReasons: bool)
    requires i <= |vs| && !DecodeParts(vs[..i], withReasons).1
    ensures DecodeParts(vs, withReasons) == DecodeParts(vs[..i], withReasons)
    decreases |vs| - i
  {
    if i < |vs| {
      var w := vs[..i + 1];
      assert w[..|w| - 1] == vs[..i];
      assert DecodeParts(w, withReasons) == DecodeParts(vs[..i], withReasons);
      DecodePartsStops(vs, i + 1, withReasons);
    } else {
      assert vs[..i] == vs;
    }
  }

  lemma {:induction false} DecodeBoxesStops(vs: seq<Value>, i: nat, capacity: int)
    requires i <= |vs| && !DecodeBoxes(vs[..i], capacity).1
    ensures DecodeBoxes(vs, capacity) == DecodeBoxes(vs[..i], capacity)
    decreases |vs| - i
  {
    if i < |vs| {
      var w := vs[..i + 1];
      assert w[..|w| - 1] == vs[..i];
      assert DecodeBoxes(w, capacity) == DecodeBoxes(vs[..i], capacity);
      DecodeBoxesStops(vs, i + 1, capacity);
    } else {
      assert vs[..i] == vs;
    }
  }

  /** A `for p_dict in …` loop of `carregar_dados`: appends each decoded part
      and stops at the first entry that raises. */
  method DecodeAll(vs: seq<Value>, withReasons: bool) returns (ps: seq<Part>, ok: bool)
    ensures (ps, ok) == DecodeParts(vs, withReasons)
  {
    ps, ok := [], true;
    var i := 0;
    while i < |vs| && ok
      invariant 0 <= i <= |vs|
      invariant (ps, ok) == DecodeParts(vs[..i], withReasons)
    {
      assert vs[..i + 1][..i] == vs[..i];
      var p := DecodePart(vs[i], withReasons);
      if p.Some? {
        ps := ps + [p.value];
      } else {
        ok := false;
      }
      i := i + 1;
    }
    if ok {
      assert vs[..i] == vs;
    } else {
      DecodePartsStops(vs, i, withReasons);
    }
  }

  /** The `for c_dict in dados.get('fechadas', [])` loop of `carregar_dados`. */
  method DecodeAllBoxes(vs: seq<Value>, capacity: int) returns (bs: seq<BoxRecord>, ok: bool)
    ensures (bs, ok) == DecodeBoxes(vs, capacity)
  {
    bs, ok := [], true;
    var i := 0;
    while i < |vs| && ok
      invariant 0 <= i <= |vs|
      invariant (bs, ok) == DecodeBoxes(vs[..i], capacity)
    {
      assert vs[..i + 1][..i] == vs[..i];
      var b := DecodeBox(vs[i], capacity);
      if b.Some? {
        bs := bs + [b.value];
      } else {
        ok := false;
      }
      i := i + 1;
    }
    if ok {
      assert vs[..i] == vs;
    } else {
      DecodeBoxesStops(vs, i, capacity);
    }
  }

  /** The ledger after `carregar_dados` read the two files: a file that is
      missing or that json.load rejects leaves its part of the ledger alone. */
  function Loaded(s: Stock, capacity: int, partsFile: FileContent, boxesFile: FileContent, now: string)
    : (r: Stock)
    ensures !partsFile.Parsed? ==> r.approved == s.approved && r.rejected == s.rejected
    ensures !boxesFile.Parsed? ==> r.closed == s.closed && r.current == s.current
    ensures partsFile.Parsed? ==> (r.approved, r.rejected) == LoadParts(partsFile.value)
  {
    var s1 := if partsFile.Parsed? then
                var l := LoadParts(partsFile.value); s.(approved := l.0, rejected := l.1)
              else s;
    if boxesFile.Parsed? then
      var l := LoadBoxes(boxesFile.value, capacity, s1.current, now); s1.(closed := l.0, current := l.1)
    else s1
  }

  /** `BancoDados`: the two part lists, the closed boxes and the current box,
      with pecas.json and caixas.json as the documents they are saved to. */
  class Ledger {
    var config: Config
    var approved: seq<Part>
    var rejected: seq<Part>
    var closed: seq<BoxRecord>
    var current: Box
    var partsFile: FileContent
    var boxesFile: FileContent

    function Contents(): Stock
      reads this, current
    {
      Stock(approved, rejected, closed, current.Record())
    }

    /** `BancoDados()`: empty lists and box 1 with the configured capacity,
        then `carregar_dados`. */
    constructor (config: Config, partsFile: FileContent, boxesFile: FileContent, now: string)
      ensures this.config == config && this.partsFile == partsFile && this.boxesFile == boxesFile
      ensures Contents() == Loaded(Stock([], [], [], EmptyBox(1, config.capacity, now)),
                                   config.capacity, partsFile, boxesFile, now)
    {
      this.config := config;
      approved, rejected, closed := [], [], [];
      current := new Box(1, config.capacity, now);
      this.partsFile, this.boxesFile := partsFile, boxesFile;
      new;
      Load(now);
    }

    /** `carregar_dados`. */
    method Load(now: string)
      modifies this
      ensures config == old(config) && partsFile == old(partsFile) && boxesFile == old(boxesFile)
      ensures Contents() == Loaded(old(Contents()), config.capacity, partsFile, boxesFile, now)
    {
      if partsFile.Parsed? {
        LoadPartsFile();
      }
      if boxesFile.Parsed? {
        LoadBoxesFile(now);
      }
    }

    /** The first half of `carregar_dados`, reading pecas.json. */
    method LoadPartsFile()
      requires partsFile.Parsed?
      modifies this
      ensures config == old(config) && partsFile == old(partsFile) && boxesFile == old(boxesFile)
      ensures closed == old(closed) && current == old(current)
      ensures (approved, rejected) == LoadParts(partsFile.value)
    {
      var d := partsFile.value;
      approved, rejected := [], [];
      var a := ItemsOf(Get(d, "aprovadas"));
      if d.Obj? && a.Some? {
        var ok;
        approved, ok := DecodeAll(a.value, false);
        var r := ItemsOf(Get(d, "reprovadas"));
        if ok && r.Some? {
          rejected, ok := DecodeAll(r.value, true);
        }
      }
    }

    /** The second half of `carregar_dados`, reading caixas.json. */
    method LoadBoxesFile(now: string)
      requires boxesFile.Parsed?
      modifies this
      ensures config == old(config) && partsFile == old(partsFile) && boxesFile == old(boxesFile)
      ensures approved == old(approved) && rejected == old(rejected)
      ensures (closed, current.Record()) == LoadBoxes(boxesFile.value, config.capacity, old(current.Record()), now)
    {
      var d := boxesFile.value;
      closed := [];
      var f := ItemsOf(Get(d, "fechadas"));
      if d.Obj? && f.Some? {
        var ok;
        closed, ok := DecodeAllBoxes(f.value, config.capacity);
        var atual := Get(d, "atual").GetOr(Obj(map[]));
        var cap := GetIntOr(atual, "capacidade", config.capacity);
        var number := GetIntOr(atual, "numero", |closed| + 1);
        if ok && atual.Obj? && cap.Some? && number.Some? {
          var box := new Box(number.value, cap.value, now);
          var items := ItemsOf(Get(atual, "pecas"));
          if items.Some? {
            var ps, _ := DecodeAll(items.value, false);
            box.parts := ps;
          }
          current := box;
        }
      }
    }

    /** `salvar_dados`: rewrites pecas.json, then caixas.json; the second is
        left as it was when a box of capacity 0 makes `to_dict` raise. */
    method Save(now: string)
      modifies this
      ensures config == old(config) && approved == old(approved) && rejected == old(rejected)
      ensures closed == old(closed) && current == old(current)
      ensures partsFile == Parsed(PartsDocument(Contents(), now))
      ensures boxesFile == if BoxesEncodable(Contents()) then Parsed(BoxesDocument(Contents(), now))
                           else old(boxesFile)
    {
      partsFile := Parsed(PartsDocument(Contents(), now));
      if BoxesEncodable(Contents()) {
        boxesFile := Parsed(BoxesDocument(Contents(), now));
      }
    }

    /** The rollover of `adicionar_peca` for an approved part. */
    method PackPart(v: Part, now: string)
      modifies this, current
      ensures config == old(config) && approved == old(approved) && rejected == old(rejected)
      ensures partsFile == old(partsFile) && boxesFile == old(boxesFile)
      ensures (closed, current.Record()) == Pack(old(closed), old(current.Record()), v, config.capacity, now)
    {
      var placed := current.Add(v, now);
      if !placed {
        closed := closed + [current.Record()];
        var box := new Box(|closed| + 1, config.capacity, now);
        placed := box.Add(v, now);
        current := box;
      }
      if current.IsFull() {
        closed := closed + [current.Record()];
        current := new Box(|closed| + 1, config.capacity, now);
      }
    }

    /** `adicionar_peca(peca)` at time `now`. */
    method Add(p: Part, now: string) returns (ok: bool, msg: string)
      modifies this, current
      ensures config == old(config)
      ensures (ok, Contents()) == AddPart(old(Contents()), p, config, now)
      ensures ok ==> partsFile == Parsed(PartsDocument(Contents(), now))
      ensures ok ==> boxesFile == if BoxesEncodable(Contents()) then Parsed(BoxesDocument(Contents(), now))
                                  else old(boxesFile)
      ensures !ok ==> partsFile == old(partsFile) && boxesFile == old(boxesFile)
      ensures msg == if ok then "Peça adicionada com sucesso" else "ID " + p.id + " já existe no sistema"
    {
      var i := FindId(approved + rejected, p.id);
      if i >= 0 {
        return false, "ID " + p.id + " já existe no sistema";
      }
      var v := Validate(p, config.criteria);
      if v.approved {
        approved := approved + [v];
        PackPart(v, now);
      } else {
        rejected := rejected + [v];
      }
      Save(now);
      ok, msg := true, "Peça adicionada com sucesso";
    }

    /** `remover_peca(id)` at time `now`. */
    method Remove(id: string, now: string) returns (ok: bool, msg: string)
      modifies this, current
      ensures config == old(config) && current == old(current)
      ensures (ok, Contents()) == RemovePart(old(Contents()), id)
      ensures ok ==> partsFile == Parsed(PartsDocument(Contents(), now))
      ensures ok ==> boxesFile == if BoxesEncodable(Contents()) then Parsed(BoxesDocument(Contents(), now))
                                  else old(boxesFile)
      ensures !ok ==> partsFile == old(partsFile) && boxesFile == old(boxesFile)
      ensures msg == "Peça " + UpperStrip(id) + (if ok then " removida com sucesso" else " não encontrada")
    {
      var key := UpperStrip(id);
      ok := RemoveByKey(key, now);
      msg := "Peça " + key + (if ok then " removida com sucesso" else " não encontrada");
    }

    /** The body of `remover_peca` after the ID is normalised. */
    method RemoveByKey(key: string, now: string) returns (ok: bool)
      modifies this, current
      ensures config == old(config) && current == old(current)
      ensures (ok, Contents()) == RemoveKey(old(Contents()), key)
      ensures ok ==> partsFile == Parsed(PartsDocument(Contents(), now))
      ensures ok ==> boxesFile == if BoxesEncodable(Contents()) then Parsed(BoxesDocument(Contents(), now))
                                  else old(boxesFile)
      ensures !ok ==> partsFile == old(partsFile) && boxesFile == old(boxesFile)
    {
      ok := Drop(key);
      if ok {
        ghost var s := Contents();
        Save(now);
        assert Contents() == s;
      }
    }

    /** The two lists and the open box without the part `key`, the files as they were. */
    method Drop(key: string) returns (ok: bool)
      modifies this, current
      ensures config == old(config) && current == old(current)
      ensures partsFile == old(partsFile) && boxesFile == old(boxesFile)
      ensures (ok, Contents()) == RemoveKey(old(Contents()), key)
    {
      ghost var s := Contents();
      KnownSplit(s, key);
      var i := FindId(approved, key);
      if i >= 0 {
        approved := approved[..i] + approved[i + 1..];
        assert approved == WithoutFirst(s.approved, key);
        current.Discard(key);
        assert Contents() == RemoveKey(s, key).1;
        return true;
      }
      var j := FindId(rejected, key);
      if j >= 0 {
        rejected := rejected[..j] + rejected[j + 1..];
        assert Contents() == RemoveKey(s, key).1;
        return true;
      }
      return false;
    }

    /** `gerar_relatorio()` at time `now`. */
    method GenerateReport(now: string) returns (r: Option<Report>)
      ensures r == ReportOf(Contents(), now)
    {
      if ReportRaises(Contents()) {
        return None;
      }
      var report := ReportFor(Contents(), now);
      r := Some(report);
    }
  }

  /** The body of `gerar_relatorio` when no box it describes has capacity 0. */
  method ReportFor(s: Stock, now: string) returns (r: Report)
    requires s.current.capacity != 0
    ensures r == ReportOn(s, now)
  {
    var shifts := TallyShifts(s.approved + s.rejected);
    var reasons := TallyReasons(s.rejected);
    r := Assemble(s, now, shifts, reasons);
  }

  // ------------------------------------------------------------------------
  // The report (gerar_relatorio)

  /** The (shift, approved) mark of every part, in order. */
  function Marks(ps: seq<Part>): (m: seq<(string, bool)>)
    ensures |m| == |ps|
  {
    if ps == [] then [] else Marks(ps[..|ps| - 1]) + [(ps[|ps| - 1].shift, ps[|ps| - 1].approved)]
  }

  /** Every rejection reason of the parts, part after part. */
  function AllReasons(ps: seq<Part>): seq<string>
  {
    if ps == [] then [] else AllReasons(ps[..|ps| - 1]) + ps[|ps| - 1].reasons
  }

  /** The `caixa_atual` entry of the report. */
  datatype BoxSummary = BoxSummary(number: int, parts: nat, vacancies: nat, capacity: int, percentFull: real)

  /** The dict `gerar_relatorio` returns, generated at `generatedAt`; `rate`
      is the approval percentage before Python rounds it to two places. */
  datatype Report = Report(generatedAt: string, approvedCount: nat, rejectedCount: nat, inspected: nat,
                           rate: real, completeBoxes: nat, current: BoxSummary,
                           shifts: seq<ShiftRow>, reasons: Counts,
                           recentRejected: seq<Value>, recentClosed: seq<Value>)

  /** A box whose `percentual_cheio` would divide by zero is among the ones
      the report describes: the current box or the last five closed. */
  predicate ReportRaises(s: Stock)
  {
    var recent := KeepLast(s.closed, 5);
    s.current.capacity == 0 || exists i :: 0 <= i < |recent| && recent[i].capacity == 0
  }

  /** `gerar_relatorio`; `None` where it raises ZeroDivisionError. */
  function ReportOf(s: Stock, now: string): (r: Option<Report>)
    ensures r.None? <==> ReportRaises(s)
    ensures r.Some? ==> r.value.generatedAt == now && r.value.inspected == |s.approved| + |s.rejected|
  {
    if ReportRaises(s) then None else Some(ReportOn(s, now))
  }

  /** The report itself, once no division by zero stops it. */
  function ReportOn(s: Stock, now: string): (r: Report)
    requires s.current.capacity != 0
    ensures r.approvedCount == |s.approved| && r.rejectedCount == |s.rejected|
    ensures r.inspected == |s.approved| + |s.rejected| && r.completeBoxes == |s.closed|
    ensures |r.recentRejected| == if |s.rejected| <= 10 then |s.rejected| else 10
    ensures |r.recentClosed| == if |s.closed| <= 5 then |s.closed| else 5
  {
    Assemble(s, now, ShiftTable(Marks(s.approved + s.rejected)), Histogram(AllReasons(s.rejected), Short))
  }

  /** The report's dict around the per-shift table and the reason histogram. */
  function Assemble(s: Stock, now: string, shifts: seq<ShiftRow>, reasons: Counts): Report
    requires s.current.capacity != 0
  {
    var total := |s.approved| + |s.rejected|;
    var rate := if total > 0 then Percent(|s.approved|, total) else 0.0;
    var c := s.current;
    Report(now, |s.approved|, |s.rejected|, total, rate, |s.closed|,
           BoxSummary(c.number, |c.parts|, Vacancies(c), c.capacity, Percent(|c.parts|, c.capacity)),
           shifts, reasons, EncodeParts(KeepLast(s.rejected, 10)), EncodeBoxes(KeepLast(s.closed, 5)))
  }

  /** The report's figures agree with each other and with the ledger: the
      inspected count is the sum of both lists, the approval rate is a
      percentage that is 0 exactly when nothing is approved, the shift table
      counts every part once under its shift and verdict, and the histogram
      counts every reason once under the check it names. */
  lemma ReportConsistent(s: Stock, now: string, shift: string, k: Check)
    requires !ReportRaises(s)
    ensures var r := ReportOf(s, now).value;
      var all := s.approved + s.rejected;
      r.inspected == r.approvedCount + r.rejectedCount
      && 0.0 <= r.rate <= 100.0 && (r.rate == 0.0 <==> r.approvedCount == 0)
      && (r.rate == 100.0 <==> r.inspected > 0 && r.rejectedCount == 0)
      && Balanced(r.shifts) && RowsTotal(r.shifts) == r.inspected
      && RowOf(r.shifts, shift) == (multiset(Marks(all))[(shift, true)], multiset(Marks(all))[(shift, false)])
      && Count(r.reasons, Label(Short, k)) == Tagged(AllReasons(s.rejected), Some(k))
      && Total(r.reasons) == |AllReasons(s.rejected)| - Tagged(AllReasons(s.rejected), None)
  {
    var all := s.approved + s.rejected;
    var r := ReportOf(s, now).value;
    var total := |s.approved| + |s.rejected|;
    assert r.shifts == ShiftTable(Marks(all)) && r.reasons == Histogram(AllReasons(s.rejected), Short);
    assert r.inspected == total && r.rate == if total > 0 then Percent(|s.approved|, total) else 0.0;
    ShiftTableSums(Marks(all));
    ShiftTableCounts(Marks(all), shift);
    HistogramCounts(AllReasons(s.rejected), Short, k);
    if total > 0 {
      PercentBounds(|s.approved|, total);
    }
  }

  /** When every reason of the rejected parts names a check, the histogram
      accounts for all of them. */
  lemma {:induction false} AllReasonsCounted(ps: seq<Part>)
    requires forall i, j :: 0 <= i < |ps| && 0 <= j < |ps[i].reasons| ==> Classify(ps[i].reasons[j]).Some?
    ensures Total(Histogram(AllReasons(ps), Short)) == |AllReasons(ps)|
  {
    AllReasonsClassified(ps);
    AllTaggedNoneFree(AllReasons(ps));
    HistogramCounts(AllReasons(ps), Short, Weight);
  }

  lemma {:induction false} AllReasonsClassified(ps: seq<Part>)
    requires forall i, j :: 0 <= i < |ps| && 0 <= j < |ps[i].reasons| ==> Classify(ps[i].reasons[j]).Some?
    ensures forall j :: 0 <= j < |AllReasons(ps)| ==> Classify(AllReasons(ps)[j]).Some?
  {
    if ps != [] {
      var init := ps[..|ps| - 1];
      AllReasonsClassified(init);
      var xs := AllReasons(init);
      var last := ps[|ps| - 1].reasons;
      forall j | 0 <= j < |xs + last|
        ensures Classify((xs + last)[j]).Some?
      {
        if j >= |xs| {
          assert (xs + last)[j] == ps[|ps| - 1].reasons[j - |xs|];
        }
      }
    }
  }

  /** The `for peca in todas_pecas` loop of `gerar_relatorio`. */
  method TallyShifts(ps: seq<Part>) returns (rows: seq<ShiftRow>)
    ensures rows == ShiftTable(Marks(ps))
  {
    rows := [];
    for i := 0 to |ps|
      invariant rows == ShiftTable(Marks(ps[..i]))
    {
      assert ps[..i + 1][..i] == ps[..i];
      rows := Tick(rows, ps[i].shift, ps[i].approved);
    }
    assert ps[..|ps|] == ps;
  }

  /** The nested `for peca … for motivo …` loops of `gerar_relatorio`. */
  method TallyReasons(ps: seq<Part>) returns (h: Counts)
    ensures h == Histogram(AllReasons(ps), Short)
  {
    h := [];
    for i := 0 to |ps|
      invariant h == Histogram(AllReasons(ps[..i]), Short)
    {
      h := TallyInto(h, AllReasons(ps[..i]), ps[i].reasons, Short);
      assert ps[..i + 1][..i] == ps[..i];
    }
    assert ps[..|ps|] == ps;
  }

  // ------------------------------------------------------------------------
  // The user store (SistemaAutenticacao)

  /** The levels `criar_usuario` offers and its refusal messages. */
  const CreateRules: Users.CreateRules :=
    Users.CreateRules([Users.Administrator, Users.Supervisor, Users.Operator],
                      "Senha deve ter pelo menos 4 caracteres", "Nível de acesso inválido")

  class Accounts {
    var users: Users.Directory

    /** `SistemaAutenticacao()` over the users usuarios.json yielded. */
    constructor (loaded: Users.Directory, now: string, salt: nat)
      ensures users == Users.Initial(loaded, now, salt)
    {
      users := loaded;
      new;
      if users == map[] {
        users := users[Users.AdminName := Users.NewUser("admin", "Administrador do Sistema", Users.Administrator, now, salt)];
      }
    }

    /** `autenticar(usuario, senha)` at time `now`. */
    method Authenticate(name: string, password: string, now: string) returns (ok: bool, data: Option<Users.UserRecord>)
      modifies this
      ensures (ok, data, users) == Users.Login(old(users), name, password, now)
    {
      if name in users {
        var record := users[name];
        if !Users.IsActive(record) {
          return false, None;
        }
        if CheckPassword(password, record.password) {
          users := users[name := record.(lastLogin := Users.Present(Some(now)))];
          return true, Some(users[name]);
        }
      }
      return false, None;
    }

    /** `criar_usuario(usuario, senha, nome_completo, nivel)` at time `now`. */
    method CreateUser(name: string, password: string, fullName: string, level: string, now: string, salt: nat)
      returns (ok: bool, msg: string)
      modifies this
      ensures (ok, msg, users) == Users.Create(old(users), CreateRules, name, password, fullName, level, now, salt)
    {
      if name in users {
        return false, "Usuário já existe";
      }
      if |password| < 4 {
        return false, "Senha deve ter pelo menos 4 caracteres";
      }
      if level !in [Users.Administrator, Users.Supervisor, Users.Operator] {
        return false, "Nível de acesso inválido";
      }
      users := users[name := Users.NewUser(password, fullName, level, now, salt)];
      return true, "Usuário criado com sucesso";
    }
  }
}
