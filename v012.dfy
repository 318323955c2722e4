/** Version 0.12 (tests/v012.py): parts validated against the hard-coded
    criteria and stamped with their operator, boxes of ten, a ledger that
    trusts the verdict it is given and checks no IDs, and a user store with
    bcrypt hashes. The report screen tallies the rejection reasons under
    long labels. */
module V012 {
  import opened Common
  import opened Text
  import opened Json
  import opened Stats
  import opened Credentials
  import Users
  import Fixed

  // ------------------------------------------------------------------------
  // Parts (Peca)

  datatype Part = Part(id: string, weight: Float, color: string, length: Float, user: string,
                       timestamp: string, approved: bool, reasons: seq<string>)

  /** `Peca(id, peso, cor, comprimento, usuario)` made at time `now`: the ID is
      kept as given, the colour is lower-cased but not stripped. */
  function NewPart(id: string, weight: Float, color: string, length: Float, user: string, now: string): (p: Part)
    ensures p.id == id && p.color == Lower(color) && p.weight == weight && p.length == length
    ensures p.user == user && p.timestamp == now && !p.approved && p.reasons == []
  {
    Part(id, weight, Lower(color), length, user, now, false, [])
  }

  /** `validar`: the reasons of the hard-coded criteria, and approved exactly
      when there are none. Nothing else about the part changes. */
  function Validate(p: Part): (r: Part)
    ensures r == p.(approved := r.approved, reasons := r.reasons)
    ensures r.reasons == Fixed.Reasons(p.weight, p.color, p.length)
    ensures r.approved <==> Fixed.WeightOk(p.weight) && Fixed.ColorOk(p.color) && Fixed.LengthOk(p.length)
  {
    var ms := Fixed.Reasons(p.weight, p.color, p.length);
    p.(approved := ms == [], reasons := ms)
  }

  /** A validated part with plainly printed measurements: every reason it
      carries is filed under the check that failed. */
  lemma ValidatedClassified(p: Part)
    requires p.reasons == Fixed.Reasons(p.weight, p.color, p.length)
    requires Plain(p.weight.repr) && Plain(p.length.repr) && IsLower(p.color)
    ensures forall j :: 0 <= j < |p.reasons| ==>
              Classify(p.reasons[j]) == Some(Fixed.Failed(p.weight, p.color, p.length)[j])
  {
    forall j | 0 <= j < |p.reasons|
      ensures Classify(p.reasons[j]) == Some(Fixed.Failed(p.weight, p.color, p.length)[j])
    {
      Fixed.ReasonsClassified(p.weight, p.color, p.length, Fixed.Failed(p.weight, p.color, p.length)[j]);
    }
  }

  // ------------------------------------------------------------------------
  // Boxes (Caixa)

  datatype BoxRecord = BoxRecord(number: int, parts: seq<Part>, closedAt: Option<string>, closedBy: string)

  /** `esta_cheia`. */
  predicate Full(b: BoxRecord)
  {
    |b.parts| >= Fixed.Capacity
  }

  /** `vagas_disponiveis`: ten minus the count, negative for an overfull box. */
  function Vacancies(b: BoxRecord): (v: int)
    ensures v <= 0 <==> Full(b)
    ensures v + |b.parts| == Fixed.Capacity
  {
    Fixed.Capacity - |b.parts|
  }

  /** `Caixa(numero)`. */
  function EmptyBox(number: int): (b: BoxRecord)
    ensures b.number == number && b.parts == [] && b.closedAt.None?
  {
    BoxRecord(number, [], None, "")
  }

  /** `Caixa.adicionar_peca` at time `now`: below ten parts the part is
      appended and the box is closed by the part's operator exactly when the
      count reaches ten; a full box refuses the part unchanged. */
  function Put(b: BoxRecord, p: Part, now: string): (r: (bool, BoxRecord))
    ensures r.0 <==> |b.parts| < Fixed.Capacity
    ensures !r.0 ==> r.1 == b
    ensures r.0 ==> r.1.parts == b.parts + [p] && r.1.number == b.number
    ensures r.0 && Full(r.1) ==> r.1.closedAt == Some(now) && r.1.closedBy == p.user
    ensures r.0 && !Full(r.1) ==> r.1.closedAt == b.closedAt && r.1.closedBy == b.closedBy
  {
    if |b.parts| < Fixed.Capacity then
      var b' := b.(parts := b.parts + [p]);
      if |b'.parts| == Fixed.Capacity then (true, b'.(closedAt := Some(now), closedBy := p.user))
      else (true, b')
    else (false, b)
  }

  class Box {
    var number: int
    var parts: seq<Part>
    var closedAt: Option<string>
    var closedBy: string

    constructor (number: int)
      ensures Record() == EmptyBox(number)
    {
      this.number := number;
      parts := [];
      closedAt := None;
      closedBy := "";
    }

    function Record(): BoxRecord
      reads this
    {
      BoxRecord(number, parts, closedAt, closedBy)
    }

    predicate IsFull()
      reads this
    {
      Full(Record())
    }

    function FreeSlots(): int
      reads this
    {
      Vacancies(Record())
    }

    /** `adicionar_peca`. */
    method Add(p: Part, now: string) returns (ok: bool)
      modifies this
      ensures (ok, Record()) == Put(old(Record()), p, now)
    {
      if |parts| < Fixed.Capacity {
        parts := parts + [p];
        if |parts| == Fixed.Capacity {
          Close(p.user, now);
        }
        ok := true;
      } else {
        ok := false;
      }
    }

    /** `fechar`. */
    method Close(user: string, now: string)
      modifies this
      ensures Record() == old(Record()).(closedAt := Some(now), closedBy := user)
    {
      closedAt := Some(now);
      closedBy := user;
    }
  }

  // ------------------------------------------------------------------------
  // The ledger (BancoDados)

  datatype Stock = Stock(approved: seq<Part>, rejected: seq<Part>, closed: seq<BoxRecord>, current: BoxRecord)

  function PartsOf(boxes: seq<BoxRecord>): seq<Part>
  {
    if boxes == [] then [] else PartsOf(boxes[..|boxes| - 1]) + boxes[|boxes| - 1].parts
  }

  lemma PartsOfAppend(boxes: seq<BoxRecord>, b: BoxRecord)
    ensures PartsOf(boxes + [b]) == PartsOf(boxes) + b.parts
  {
    assert (boxes + [b])[..|boxes|] == boxes;
  }

  /** Every packed part: the closed boxes' parts, then the current box's. */
  function Packed(closed: seq<BoxRecord>, current: BoxRecord): seq<Part>
  {
    PartsOf(closed) + current.parts
  }

  /** The rollover in `adicionar_peca`: put the part in the current box; if
      that refuses, archive the box and put it in a new box numbered
      len(closed) + 1; then archive the current box if it is full. It archives
      at most two boxes and rewrites no closed one. */
  function Pack(closed: seq<BoxRecord>, current: BoxRecord, p: Part, now: string)
    : (r: (seq<BoxRecord>, BoxRecord))
    ensures |closed| <= |r.0| <= |closed| + 2 && r.0[..|closed|] == closed
  {
    var first := Put(current, p, now);
    var closed1 := if first.0 then closed else closed + [current];
    var cur1 := if first.0 then first.1 else Put(EmptyBox(|closed1| + 1), p, now).1;
    if Full(cur1) then (closed1 + [cur1], EmptyBox(|closed1| + 2)) else (closed1, cur1)
  }

  /** Packing leaves the box being filled with room, puts the part behind
      every packed part, and numbers a new box after the ones archived. */
  lemma PackSpec(closed: seq<BoxRecord>, current: BoxRecord, p: Part, now: string)
    ensures var r := Pack(closed, current, p, now);
      !Full(r.1) && Packed(r.0, r.1) == Packed(closed, current) + [p]
      && (r.0 != closed ==> r.1.number == |r.0| + 1)
  {
    var first := Put(current, p, now);
    var closed1 := if first.0 then closed else closed + [current];
    PartsOfAppend(closed, current);
    var cur1 := if first.0 then first.1 else Put(EmptyBox(|closed1| + 1), p, now).1;
    PartsOfAppend(closed1, cur1);
    assert (closed1 + [cur1])[..|closed|] == closed;
  }

  /** `adicionar_peca`: the part's own `aprovada` decides the list, with no
      check of its ID; an approved part is packed. */
  function AddPart(s: Stock, p: Part, now: string): (r: Stock)
    ensures p.approved ==> r.approved == s.approved + [p] && r.rejected == s.rejected
                           && (r.closed, r.current) == Pack(s.closed, s.current, p, now)
    ensures !p.approved ==> r == s.(rejected := s.rejected + [p])
  {
    if p.approved then
      var packed := Pack(s.closed, s.current, p, now);
      Stock(s.approved + [p], s.rejected, packed.0, packed.1)
    else s.(rejected := s.rejected + [p])
  }

  /** Every part is taken, a second part with a known ID as well; an
      approved one is packed behind the others and the current box is left
      with room. */
  lemma AddKeepsStock(s: Stock, p: Part, now: string)
    ensures var r := AddPart(s, p, now);
      |r.approved| + |r.rejected| == |s.approved| + |s.rejected| + 1
      && r.closed[..|s.closed|] == s.closed
      && (p.approved ==> !Full(r.current) && Packed(r.closed, r.current) == Packed(s.closed, s.current) + [p])
      && (!p.approved ==> r.closed == s.closed && r.current == s.current)
  {
    if p.approved {
      PackSpec(s.closed, s.current, p, now);
    } else {
      assert s.closed[..|s.closed|] == s.closed;
    }
  }

  /** The position of the first part with exactly this ID, or -1. */
  function FirstIndex(ps: seq<Part>, id: string): (r: int)
    ensures -1 <= r < |ps|
    ensures r == -1 <==> forall i :: 0 <= i < |ps| ==> ps[i].id != id
    ensures r >= 0 ==> ps[r].id == id && forall i :: 0 <= i < r ==> ps[i].id != id
  {
    if ps == [] then -1
    else if ps[0].id == id then 0
    else var r := FirstIndex(ps[1..], id); if r == -1 then -1 else r + 1
  }

  /** The list without its first part with exactly this ID. */
  function WithoutFirst(ps: seq<Part>, id: string): (r: seq<Part>)
    ensures FirstIndex(ps, id) == -1 ==> r == ps
    ensures FirstIndex(ps, id) >= 0 ==>
              |r| == |ps| - 1 && r == ps[..FirstIndex(ps, id)] + ps[FirstIndex(ps, id) + 1..]
  {
    var j := FirstIndex(ps, id);
    if j >= 0 then ps[..j] + ps[j + 1..] else ps
  }

  /** The IDs of the parts, in order. */
  function Ids(ps: seq<Part>): (r: seq<string>)
    ensures |r| == |ps| && forall i :: 0 <= i < |ps| ==> r[i] == ps[i].id
  {
    seq(|ps|, i requires 0 <= i < |ps| => ps[i].id)
  }

  lemma IdsConcat(a: seq<Part>, b: seq<Part>)
    ensures Ids(a + b) == Ids(a) + Ids(b)
  {
  }

  /** Deleting the part at `j` drops its ID once from the IDs. */
  lemma IdsDelete(ps: seq<Part>, j: nat)
    requires j < |ps|
    ensures multiset(Ids(ps[..j] + ps[j + 1..])) + multiset{ps[j].id} == multiset(Ids(ps))
  {
    var xs := Ids(ps);
    assert Ids(ps[..j]) == xs[..j];
    assert Ids(ps[j + 1..]) == xs[j + 1..];
    IdsConcat(ps[..j], ps[j + 1..]);
    assert xs == xs[..j] + [xs[j]] + xs[j + 1..];
    assert multiset(xs) == multiset(xs[..j]) + multiset{xs[j]} + multiset(xs[j + 1..]);
  }

  /** Dropping the first part with an ID drops that ID once from the IDs. */
  lemma IdsWithoutFirst(ps: seq<Part>, id: string)
    requires FirstIndex(ps, id) >= 0
    ensures multiset(Ids(WithoutFirst(ps, id))) + multiset{id} == multiset(Ids(ps))
  {
    var j := FirstIndex(ps, id);
    assert WithoutFirst(ps, id) == ps[..j] + ps[j + 1..];
    assert ps[j].id == id;
    IdsDelete(ps, j);
  }

  /** The ID is among the parts exactly when a first match exists. */
  lemma FirstIndexIds(ps: seq<Part>, id: string)
    ensures FirstIndex(ps, id) >= 0 <==> id in Ids(ps)
  {
  }

  /** `remover_peca(id)`: the first approved part with exactly this ID is
      deleted, else the first rejected one; the boxes are never touched and
      an unknown ID changes nothing. */
  function RemovePart(s: Stock, id: string): (r: (bool, Stock))
    ensures r.0 <==> id in Ids(s.approved) || id in Ids(s.rejected)
    ensures r.1.closed == s.closed && r.1.current == s.current
    ensures !r.0 ==> r.1 == s
    ensures FirstIndex(s.approved, id) >= 0 ==>
              r.1.approved == WithoutFirst(s.approved, id) && r.1.rejected == s.rejected
    ensures FirstIndex(s.approved, id) < 0 ==>
              r.1.approved == s.approved && r.1.rejected == WithoutFirst(s.rejected, id)
  {
    FirstIndexIds(s.approved, id);
    FirstIndexIds(s.rejected, id);
    if FirstIndex(s.approved, id) >= 0 then (true, s.(approved := WithoutFirst(s.approved, id)))
    else if FirstIndex(s.rejected, id) >= 0 then (true, s.(rejected := WithoutFirst(s.rejected, id)))
    else (false, s)
  }

  /** A removal takes exactly the given ID once out of the ledger's IDs. */
  lemma RemoveDropsId(s: Stock, id: string)
    ensures var r := RemovePart(s, id);
      multiset(Ids(r.1.approved + r.1.rejected)) + (if r.0 then multiset{id} else multiset{})
      == multiset(Ids(s.approved + s.rejected))
  {
    var r := RemovePart(s, id);
    IdsConcat(s.approved, s.rejected);
    IdsConcat(r.1.approved, r.1.rejected);
    if FirstIndex(s.approved, id) >= 0 {
      assert r.1.approved == WithoutFirst(s.approved, id) && r.1.rejected == s.rejected;
      IdsWithoutFirst(s.approved, id);
    } else if FirstIndex(s.rejected, id) >= 0 {
      assert r.1.rejected == WithoutFirst(s.rejected, id) && r.1.approved == s.approved;
      IdsWithoutFirst(s.rejected, id);
    }
  }

  /** The dict `gerar_relatorio` returns, generated at `generatedAt`. */
  datatype Report = Report(generatedAt: string, approvedCount: nat, rejectedCount: nat, inspected: nat,
                           completeBoxes: nat, currentNumber: int, currentParts: nat, currentVacancies: int,
                           rejectedDetails: seq<Part>, closedDetails: seq<BoxRecord>)

  /** `gerar_relatorio`: the counts and the current box's figures, with every
      rejected part and every closed box in full. */
  function ReportOf(s: Stock, now: string): (r: Report)
    ensures r.inspected == r.approvedCount + r.rejectedCount
    ensures r.approvedCount == |s.approved| && r.rejectedCount == |s.rejected| && r.completeBoxes == |s.closed|
    ensures r.currentNumber == s.current.number && r.currentParts == |s.current.parts|
    ensures r.currentVacancies == Fixed.Capacity - r.currentParts
    ensures r.rejectedDetails == s.rejected && r.closedDetails == s.closed
  {
    Report(now, |s.approved|, |s.rejected|, |s.approved| + |s.rejected|, |s.closed|,
           s.current.number, |s.current.parts|, Vacancies(s.current), s.rejected, s.closed)
  }

  /** Every rejection reason of the parts, part after part. */
  function AllReasons(ps: seq<Part>): seq<string>
  {
    if ps == [] then [] else AllReasons(ps[..|ps| - 1]) + ps[|ps| - 1].reasons
  }

  /** The approval rate the report screen prints, shown only when something
      was inspected. */
  function ShownRate(r: Report): (rate: Option<real>)
    requires r.approvedCount <= r.inspected
    ensures rate.Some? <==> r.inspected > 0
    ensures rate.Some? ==> 0.0 <= rate.value <= 100.0 && (rate.value == 0.0 <==> r.approvedCount == 0)
  {
    if r.inspected > 0 then
      PercentBounds(r.approvedCount, r.inspected);
      Some(Percent(r.approvedCount, r.inspected))
    else None
  }

  /** The "ANÁLISE DE REPROVAÇÕES" section of the report screen: shown only
      when some part was rejected, it counts the reasons of the reported
      rejected parts under the long labels. */
  function Analysis(r: Report): Option<Counts>
  {
    if r.rejectedCount > 0 then Some(Histogram(AllReasons(r.rejectedDetails), Long)) else None
  }

  /** The analysis appears exactly when a part was rejected; it counts each
      reason once under the first check it names and, for parts validated
      with plainly printed measurements, it accounts for every reason. */
  lemma AnalysisCounts(s: Stock, now: string, k: Check)
    ensures var a := Analysis(ReportOf(s, now));
      (a.Some? <==> |s.rejected| > 0)
      && (a.Some? ==> Count(a.value, Label(Long, k)) == Tagged(AllReasons(s.rejected), Some(k))
                      && Total(a.value) == |AllReasons(s.rejected)| - Tagged(AllReasons(s.rejected), None))
  {
    HistogramCounts(AllReasons(s.rejected), Long, k);
  }

  /** Parts as `validar` leaves them, with measurements Python prints without
      a 'P' or 'C' and lower-cased colours. */
  predicate Plainly(ps: seq<Part>)
  {
    forall i :: 0 <= i < |ps| ==>
      ps[i].reasons == Fixed.Reasons(ps[i].weight, ps[i].color, ps[i].length)
      && Plain(ps[i].weight.repr) && Plain(ps[i].length.repr) && IsLower(ps[i].color)
  }

  /** For such parts no reason is left out of the analysis. */
  lemma {:induction false} AnalysisComplete(ps: seq<Part>)
    requires Plainly(ps)
    ensures Tagged(AllReasons(ps), None) == 0
    ensures Total(Histogram(AllReasons(ps), Long)) == |AllReasons(ps)|
  {
    AllClassified(ps);
    AllTaggedNoneFree(AllReasons(ps));
    HistogramCounts(AllReasons(ps), Long, Weight);
  }

  lemma {:induction false} AllClassified(ps: seq<Part>)
    requires Plainly(ps)
    ensures forall j :: 0 <= j < |AllReasons(ps)| ==> Classify(AllReasons(ps)[j]).Some?
  {
    if ps != [] {
      var init := ps[..|ps| - 1];
      AllClassified(init);
      var xs := AllReasons(init);
      var last := ps[|ps| - 1];
      ValidatedClassified(last);
      forall j | 0 <= j < |xs + last.reasons|
        ensures Classify((xs + last.reasons)[j]).Some?
      {
        if j >= |xs| {
          assert (xs + last.reasons)[j] == last.reasons[j - |xs|];
        }
      }
    }
  }

  /** The `motivos_count` loops of the report screen. */
  method TallyReasons(ps: seq<Part>) returns (h: Counts)
    ensures h == Histogram(AllReasons(ps), Long)
  {
    h := [];
    for i := 0 to |ps|
      invariant h == Histogram(AllReasons(ps[..i]), Long)
    {
      h := TallyInto(h, AllReasons(ps[..i]), ps[i].reasons, Long);
      assert ps[..i + 1][..i] == ps[..i];
    }
    assert ps[..|ps|] == ps;
  }

  /** `BancoDados`: the two part lists, the closed boxes and the box being filled. */
  class Ledger {
    var approved: seq<Part>
    var rejected: seq<Part>
    var closed: seq<BoxRecord>
    var current: Box

    function Contents(): Stock
      reads this, current
    {
      Stock(approved, rejected, closed, current.Record())
    }

    /** `BancoDados()`, holding the ledger `carregar_dados` read. */
    constructor (loaded: Stock)
      ensures Contents() == loaded
    {
      approved, rejected, closed := loaded.approved, loaded.rejected, loaded.closed;
      var box := new Box(loaded.current.number);
      box.parts, box.closedAt, box.closedBy := loaded.current.parts, loaded.current.closedAt, loaded.current.closedBy;
      current := box;
    }

    /** `adicionar_peca(peca)` at time `now`. */
    method Add(p: Part, now: string)
      modifies this, current
      ensures Contents() == AddPart(old(Contents()), p, now)
    {
      if p.approved {
        approved := approved + [p];
        var placed := current.Add(p, now);
        if !placed {
          closed := closed + [current.Record()];
          var box := new Box(|closed| + 1);
          placed := box.Add(p, now);
          current := box;
        }
        if current.IsFull() {
          closed := closed + [current.Record()];
          current := new Box(|closed| + 1);
        }
      } else {
        rejected := rejected + [p];
      }
    }

    /** `remover_peca(id)`: the two `for i, peca in enumerate(…)` loops. */
    method Remove(id: string) returns (ok: bool)
      modifies this
      ensures current == old(current)
      ensures (ok, Contents()) == RemovePart(old(Contents()), id)
    {
      ghost var s := Contents();
      var i := 0;
      while i < |approved|
        invariant 0 <= i <= |approved| && approved == s.approved
        invariant forall k :: 0 <= k < i ==> approved[k].id != id
      {
        if approved[i].id == id {
          approved := approved[..i] + approved[i + 1..];
          return true;
        }
        i := i + 1;
      }
      var j := 0;
      while j < |rejected|
        invariant 0 <= j <= |rejected| && rejected == s.rejected
        invariant forall k :: 0 <= k < j ==> rejected[k].id != id
      {
        if rejected[j].id == id {
          rejected := rejected[..j] + rejected[j + 1..];
          return true;
        }
        j := j + 1;
      }
      return false;
    }

    /** `gerar_relatorio` at time `now`. */
    method GenerateReport(now: string) returns (r: Report)
      ensures r == ReportOf(Contents(), now)
    {
      r := Report(now, |approved|, |rejected|, |approved| + |rejected|, |closed|,
                  current.number, |current.parts|, current.FreeSlots(), rejected, closed);
    }
  }

  // ------------------------------------------------------------------------
  // The user store (SistemaAutenticacao)

  class Accounts {
    var users: Users.Directory

    /** `SistemaAutenticacao()` over the users usuarios.json yielded. */
    constructor (loaded: Users.Directory, now: string, salt: nat)
      ensures users == Users.InitialV012(loaded, now, salt)
    {
      users := loaded;
      new;
      if users == map[] {
        users := map[Users.AdminName := Users.UserRecord(HashPassword("admin", salt), "Administrador",
                                                         Users.Administrator, now, Users.Absent, Users.Absent)];
      }
    }

    /** `autenticar(usuario, senha)`: the store does not change. */
    method Authenticate(name: string, password: string) returns (ok: bool)
      ensures ok <==> Users.AcceptsV012(users, name, password)
    {
      ok := name in users && CheckPassword(password, users[name].password);
    }

    /** `criar_usuario(usuario, senha, nome_completo, nivel)` at time `now`. */
    method CreateUser(name: string, password: string, fullName: string, level: string, now: string, salt: nat)
      returns (ok: bool)
      modifies this
      ensures (ok, users) == Users.CreateV012(old(users), name, password, fullName, level, now, salt)
    {
      if name in users {
        return false;
      }
      users := users[name := Users.UserRecord(HashPassword(password, salt), fullName, level, now,
                                              Users.Absent, Users.Absent)];
      return true;
    }

    /** `obter_info_usuario(usuario)`. */
    method Info(name: string) returns (r: Option<Users.UserRecord>)
      ensures r.Some? <==> name in users
      ensures r.Some? ==> r.value == users[name]
    {
      r := if name in users then Some(users[name]) else None;
    }
  }
}
