/** Version 0.10 (tests/v010.py): the first inspection system. A part is
    inspected once, against the hard-coded criteria; approved parts go into
    boxes of ten and the whole ledger is kept in one JSON document that is
    rewritten after every inspection. The report can be exported as CSV. */
module V010 {
  import opened Common
  import opened Text
  import opened Json
  import Fixed

  // ------------------------------------------------------------------------
  // Parts (Peca) and boxes (Caixa)

  datatype Part = Part(id: string, weight: Float, color: string, length: Float, timestamp: string,
                       approved: bool, reasons: seq<string>)

  /** `Peca(id_peca, peso, cor, comprimento)` made at time `now`: the ID is
      kept as given and the colour lower-cased. */
  function NewPart(id: string, weight: Float, color: string, length: Float, now: string): (p: Part)
    ensures p.id == id && p.weight == weight && p.color == Lower(color) && p.length == length
    ensures p.timestamp == now && !p.approved && p.reasons == []
  {
    Part(id, weight, Lower(color), length, now, false, [])
  }

  /** `validar`: the reasons of the hard-coded criteria, and approved exactly
      when there are none. Nothing else about the part changes. */
  function Validate(p: Part): (r: Part)
    ensures r == p.(approved := r.approved, reasons := r.reasons)
    ensures r.reasons == Fixed.Reasons(p.weight, p.color, p.length)
    ensures r.approved <==> Fixed.WeightOk(p.weight) && Fixed.ColorOk(p.color) && Fixed.LengthOk(p.length)
  {
    var ms := Fixed.Reasons(p.weight, p.color, p.length);
    p.(approved := ms == [], reasons := ms)
  }

  datatype BoxRecord = BoxRecord(number: int, parts: seq<Part>, closedAt: Option<string>)

  /** `esta_cheia`. */
  predicate Full(b: BoxRecord)
  {
    |b.parts| >= Fixed.Capacity
  }

  /** `vagas_disponiveis`: ten minus the count, negative for an overfull box. */
  function Vacancies(b: BoxRecord): (v: int)
    ensures v <= 0 <==> Full(b)
    ensures v + |b.parts| == Fixed.Capacity
  {
    Fixed.Capacity - |b.parts|
  }

  /** `Caixa(numero)`. */
  function EmptyBox(number: int): (b: BoxRecord)
    ensures b.number == number && b.parts == [] && b.closedAt.None?
  {
    BoxRecord(number, [], None)
  }

  /** `Caixa.adicionar_peca` at time `now`: below ten parts the part is
      appended and the box is closed exactly when the count reaches ten; a
      full box refuses the part unchanged. */
  function Put(b: BoxRecord, p: Part, now: string): (r: (bool, BoxRecord))
    ensures r.0 <==> |b.parts| < Fixed.Capacity
    ensures !r.0 ==> r.1 == b
    ensures r.0 ==> r.1.parts == b.parts + [p] && r.1.number == b.number
    ensures r.0 ==> r.1.closedAt == if Full(r.1) then Some(now) else b.closedAt
  {
    if |b.parts| < Fixed.Capacity then
      var b' := b.(parts := b.parts + [p]);
      if |b'.parts| == Fixed.Capacity then (true, b'.(closedAt := Some(now))) else (true, b')
    else (false, b)
  }

  class Box {
    var number: int
    var parts: seq<Part>
    var closedAt: Option<string>

    constructor (number: int)
      ensures Record() == EmptyBox(number)
    {
      this.number := number;
      parts := [];
      closedAt := None;
    }

    function Record(): BoxRecord
      reads this
    {
      BoxRecord(number, parts, closedAt)
    }

    predicate IsFull()
      reads this
    {
      Full(Record())
    }

    function FreeSlots(): int
      reads this
    {
      Vacancies(Record())
    }

    /** `adicionar_peca`. */
    method Add(p: Part, now: string) returns (ok: bool)
      modifies this
      ensures (ok, Record()) == Put(old(Record()), p, now)
    {
      if |parts| < Fixed.Capacity {
        parts := parts + [p];
        if |parts| == Fixed.Capacity {
          Close(now);
        }
        ok := true;
      } else {
        ok := false;
      }
    }

    /** `fechar`. */
    method Close(now: string)
      modifies this
      ensures Record() == old(Record()).(closedAt := Some(now))
    {
      closedAt := Some(now);
    }
  }

  // ------------------------------------------------------------------------
  // Inspection (SistemaControleQualidade)

  datatype Stock = Stock(approved: seq<Part>, rejected: seq<Part>, closed: seq<BoxRecord>, current: BoxRecord)

  /** The empty ledger `__init__` starts from, and `limpar_dados` returns to. */
  const Initial: Stock := Stock([], [], [], EmptyBox(1))

  function PartsOf(boxes: seq<BoxRecord>): seq<Part>
  {
    if boxes == [] then [] else PartsOf(boxes[..|boxes| - 1]) + boxes[|boxes| - 1].parts
  }

  lemma PartsOfAppend(boxes: seq<BoxRecord>, b: BoxRecord)
    ensures PartsOf(boxes + [b]) == PartsOf(boxes) + b.parts
  {
    assert (boxes + [b])[..|boxes|] == boxes;
  }

  /** Every packed part: the closed boxes' parts, then the current box's. */
  function Packed(closed: seq<BoxRecord>, current: BoxRecord): seq<Part>
  {
    PartsOf(closed) + current.parts
  }

  /** The rollover in `inspecionar_peca`: put the part in the current box;
      if that refuses, archive the box and put it in a new box numbered
      len(closed) + 1; then archive the current box if it is full. It archives
      at most two boxes and rewrites no closed one. */
  function Pack(closed: seq<BoxRecord>, current: BoxRecord, p: Part, now: string)
    : (r: (seq<BoxRecord>, BoxRecord))
    ensures |closed| <= |r.0| <= |closed| + 2 && r.0[..|closed|] == closed
  {
    var first := Put(current, p, now);
    var closed1 := if first.0 then closed else closed + [current];
    var cur1 := if first.0 then first.1 else Put(EmptyBox(|closed1| + 1), p, now).1;
    if Full(cur1) then (closed1 + [cur1], EmptyBox(|closed1| + 2)) else (closed1, cur1)
  }

  /** Packing leaves the box being filled with room, puts the part behind
      every packed part, and numbers a new box after the ones archived. */
  lemma PackSpec(closed: seq<BoxRecord>, current: BoxRecord, p: Part, now: string)
    ensures var r := Pack(closed, current, p, now);
      !Full(r.1) && Packed(r.0, r.1) == Packed(closed, current) + [p]
      && (r.0 != closed ==> r.1.number == |r.0| + 1)
  {
    var first := Put(current, p, now);
    var closed1 := if first.0 then closed else closed + [current];
    PartsOfAppend(closed, current);
    var cur1 := if first.0 then first.1 else Put(EmptyBox(|closed1| + 1), p, now).1;
    PartsOfAppend(closed1, cur1);
    assert (closed1 + [cur1])[..|closed|] == closed;
  }

  const ApprovedMessage: string := "✅ Peça APROVADA e adicionada à caixa!"

  /** The rejection message: the reasons one per line, each after a bullet. */
  function RejectedMessage(reasons: seq<string>): string
  {
    "❌ Peça REPROVADA\n\nMotivos:\n" + Join(Bulleted(reasons), "\n")
  }

  function Bulleted(reasons: seq<string>): (r: seq<string>)
    ensures |r| == |reasons| && forall i :: 0 <= i < |r| ==> r[i] == "• " + reasons[i]
  {
    seq(|reasons|, i requires 0 <= i < |reasons| => "• " + reasons[i])
  }

  /** `inspecionar_peca(id_peca, peso, cor, comprimento)` at time `now`: the
      new part is validated; an approved part is added to the approved list
      and packed, a rejected one is added to the rejected list. No ID is
      checked against those already inspected. */
  function InspectPart(s: Stock, id: string, weight: Float, color: string, length: Float, now: string)
    : (r: (bool, string, Stock))
    ensures var p := Validate(NewPart(id, weight, color, length, now));
      r.0 == p.approved
      && (r.0 ==> r.1 == ApprovedMessage && r.2.approved == s.approved + [p] && r.2.rejected == s.rejected
                  && (r.2.closed, r.2.current) == Pack(s.closed, s.current, p, now))
      && (!r.0 ==> r.1 == RejectedMessage(p.reasons) && r.2 == s.(rejected := s.rejected + [p]))
  {
    var p := Validate(NewPart(id, weight, color, length, now));
    if p.approved then
      var packed := Pack(s.closed, s.current, p, now);
      (true, ApprovedMessage, Stock(s.approved + [p], s.rejected, packed.0, packed.1))
    else (false, RejectedMessage(p.reasons), s.(rejected := s.rejected + [p]))
  }

  /** An inspection records exactly one part: approved with no reasons and
      packed behind the others, or rejected with one reason per failed check
      listed in the message. Closed boxes are never rewritten. */
  lemma InspectRecords(s: Stock, id: string, weight: Float, color: string, length: Float, now: string)
    ensures var r := InspectPart(s, id, weight, color, length, now);
      var p := Validate(NewPart(id, weight, color, length, now));
      |r.2.approved| + |r.2.rejected| == |s.approved| + |s.rejected| + 1
      && r.2.closed[..|s.closed|] == s.closed
      && (r.0 ==> p.reasons == [] && !Full(r.2.current)
                  && Packed(r.2.closed, r.2.current) == Packed(s.closed, s.current) + [p])
      && (!r.0 ==> |p.reasons| == |Fixed.Failed(p.weight, p.color, p.length)| > 0
                   && r.2.closed == s.closed && r.2.current == s.current)
  {
    var p := Validate(NewPart(id, weight, color, length, now));
    if p.approved {
      PackSpec(s.closed, s.current, p, now);
    } else {
      assert s.closed[..|s.closed|] == s.closed;
    }
  }

  /** The dict `gerar_relatorio_completo` returns, generated at `generatedAt`. */
  datatype Report = Report(generatedAt: string, approvedCount: nat, rejectedCount: nat, inspected: nat,
                           completeBoxes: nat, currentNumber: int, currentParts: nat, currentVacancies: int,
                           rejectedDetails: seq<Part>, closedDetails: seq<BoxRecord>)

  /** `gerar_relatorio_completo`: the counts and the current box's figures,
      with every rejected part and every closed box in full. */
  function ReportOf(s: Stock, now: string): (r: Report)
    ensures r.inspected == r.approvedCount + r.rejectedCount
    ensures r.approvedCount == |s.approved| && r.rejectedCount == |s.rejected| && r.completeBoxes == |s.closed|
    ensures r.currentNumber == s.current.number && r.currentParts == |s.current.parts|
    ensures r.currentVacancies == Fixed.Capacity - r.currentParts
    ensures r.rejectedDetails == s.rejected && r.closedDetails == s.closed
  {
    Report(now, |s.approved|, |s.rejected|, |s.approved| + |s.rejected|, |s.closed|,
           s.current.number, |s.current.parts|, Vacancies(s.current), s.rejected, s.closed)
  }

  /** Each inspection raises the inspected count by one, and the approved
      count exactly when the part passed; the current box always has room. */
  lemma InspectThenReport(s: Stock, id: string, weight: Float, color: string, length: Float, now: string,
                          later: string)
    ensures var r := InspectPart(s, id, weight, color, length, now);
      var before, after := ReportOf(s, later), ReportOf(r.2, later);
      after.inspected == before.inspected + 1
      && after.approvedCount == before.approvedCount + (if r.0 then 1 else 0)
      && after.rejectedCount == before.rejectedCount + (if r.0 then 0 else 1)
      && (r.0 ==> after.currentVacancies > 0)
  {
    InspectRecords(s, id, weight, color, length, now);
  }

  // ------------------------------------------------------------------------
  // Persistence: dados_controle_qualidade.json as one document

  /** `Peca.to_dict`. */
  function EncodePart(p: Part): Value
  {
    Obj(map["id" := Str(p.id), "peso" := Real(p.weight), "cor" := Str(p.color),
             "comprimento" := Real(p.length), "timestamp" := Str(p.timestamp),
             "aprovada" := Bool(p.approved), "motivos_reprovacao" := StrList(p.reasons)])
  }

  function EncodeParts(ps: seq<Part>): (vs: seq<Value>)
    ensures |vs| == |ps|
  {
    if ps == [] then [] else EncodeParts(ps[..|ps| - 1]) + [EncodePart(ps[|ps| - 1])]
  }

  /** `Caixa.to_dict`. */
  function EncodeBox(b: BoxRecord): Value
  {
    Obj(map["numero" := Int(b.number), "pecas" := Arr(EncodeParts(b.parts)),
             "data_fechamento" := OptStr(b.closedAt), "quantidade_pecas" := Int(|b.parts|)])
  }

  function EncodeBoxes(bs: seq<BoxRecord>): (vs: seq<Value>)
    ensures |vs| == |bs|
  {
    if bs == [] then [] else EncodeBoxes(bs[..|bs| - 1]) + [EncodeBox(bs[|bs| - 1])]
  }

  /** The document `salvar_dados` writes. */
  function Document(s: Stock): Value
  {
    Obj(map["pecas_aprovadas" := Arr(EncodeParts(s.approved)), "pecas_reprovadas" := Arr(EncodeParts(s.rejected)),
             "caixas_fechadas" := Arr(EncodeBoxes(s.closed)), "caixa_atual" := EncodeBox(s.current)])
  }

  /** The part `carregar_dados` rebuilds from one dict: every field is read
      with `p_dict[key]`, so a missing one raises; the constructor lower-cases
      the colour again, and the stored approval and timestamp are put back.
      The reasons are read back only for the rejected list. */
  function DecodePart(v: Value, withReasons: bool): (r: Option<Part>)
    ensures r.Some? ==> Canonical(r.value, withReasons)
    ensures r.Some? ==> Get(v, "id") == Some(Str(r.value.id)) && Get(v, "aprovada") == Some(Bool(r.value.approved))
  {
    var id := GetStr(v, "id");
    var weight := GetReal(v, "peso");
    var color := GetStr(v, "cor");
    var length := GetReal(v, "comprimento");
    var approved := GetBool(v, "aprovada");
    var timestamp := GetStr(v, "timestamp");
    var reasons := if !withReasons then Some([])
                   else match Get(v, "motivos_reprovacao")
                     case Some(Arr(xs)) => AsStrList(xs)
                     case _ => None;
    if id.Some? && weight.Some? && color.Some? && length.Some? && approved.Some? && timestamp.Some?
       && reasons.Some?
    then
      LowerIsLower(color.value);
      Some(Part(id.value, weight.value, Lower(color.value), length.value, timestamp.value,
                approved.value, reasons.value))
    else None
  }

  /** The parts a decoding loop appends before its first failure, and whether
      it got through the whole list. */
  function DecodeParts(vs: seq<Value>, withReasons: bool): (r: (seq<Part>, bool))
    ensures |r.0| <= |vs|
    ensures r.1 ==> |r.0| == |vs|
  {
    if vs == [] then ([], true)
    else
      var init := DecodeParts(vs[..|vs| - 1], withReasons);
      if !init.1 then init
      else match DecodePart(vs[|vs| - 1], withReasons)
        case None => (init.0, false)
        case Some(p) => (init.0 + [p], true)
  }

  /** A closed box from one dict. `numero`, `data_fechamento` and `pecas` must
      be there; the box is kept only when all of its parts decode. */
  function DecodeBox(v: Value): Option<BoxRecord>
  {
    var number := GetInt(v, "numero");
    var closedAt := match Get(v, "data_fechamento")
                    case Some(Null) => Some(None)
                    case Some(Str(s)) => Some(Some(s))
                    case _ => None;
    var stored := Get(v, "pecas");
    var items := if stored.Some? then ItemsOf(stored) else None;
    if number.Some? && closedAt.Some? && items.Some? && DecodeParts(items.value, false).1
    then Some(BoxRecord(number.value, DecodeParts(items.value, false).0, closedAt.value))
    else None
  }

  function DecodeBoxes(vs: seq<Value>): (r: (seq<BoxRecord>, bool))
  {
    if vs == [] then ([], true)
    else
      var init := DecodeBoxes(vs[..|vs| - 1]);
      if !init.1 then init
      else match DecodeBox(vs[|vs| - 1])
        case None => (init.0, false)
        case Some(b) => (init.0 + [b], true)
  }

  /** `carregar_dados` on a parsed document, from the empty ledger. The four
      sections are read in order inside one `try`, so the first failure
      stops the load and keeps what was appended before it. The current box
      is replaced by a new one with the stored number (or len(closed) + 1)
      before its parts are read, and its closing date is not read back. */
  function LoadDocument(d: Value): Stock
  {
    var a := ItemsOf(Get(d, "pecas_aprovadas"));
    if !d.Obj? || a.None? then Initial
    else
      var ap := DecodeParts(a.value, false);
      if !ap.1 then Initial.(approved := ap.0) else LoadRejected(d, ap.0)
  }

  /** The load once the approved parts are in. */
  function LoadRejected(d: Value, approved: seq<Part>): Stock
  {
    var r := ItemsOf(Get(d, "pecas_reprovadas"));
    if r.None? then Initial.(approved := approved)
    else
      var rp := DecodeParts(r.value, true);
      if !rp.1 then Initial.(approved := approved, rejected := rp.0) else LoadClosed(d, approved, rp.0)
  }

  /** The load once both part lists are in. */
  function LoadClosed(d: Value, approved: seq<Part>, rejected: seq<Part>): Stock
  {
    var s2 := Initial.(approved := approved, rejected := rejected);
    var c := ItemsOf(Get(d, "caixas_fechadas"));
    if c.None? then s2
    else
      var cb := DecodeBoxes(c.value);
      if !cb.1 then s2.(closed := cb.0)
      else LoadCurrent(Get(d, "caixa_atual").GetOr(Obj(map[])), s2.(closed := cb.0))
  }

  /** The last step of the load: `caixa_atual`, or an empty dict when it is absent. */
  function LoadCurrent(atual: Value, s3: Stock): Stock
  {
    var number := GetIntOr(atual, "numero", |s3.closed| + 1);
    if !atual.Obj? || number.None? then s3
    else
      var items := ItemsOf(Get(atual, "pecas"));
      var box := EmptyBox(number.value);
      if items.None? then s3.(current := box)
      else s3.(current := box.(parts := DecodeParts(items.value, false).0))
  }

  /** The ledger `__init__` ends with: a missing file, or one json.load
      rejects, leaves the empty ledger. */
  function Loaded(file: FileContent): (r: Stock)
    ensures !file.Parsed? ==> r == Initial
    ensures r.current.closedAt.None?
  {
    if file.Parsed? then LoadDocument(file.value) else Initial
  }

  /** A part as the loader rebuilds it: a lower-case colour, and no stored
      reasons where none are read back. */
  predicate Canonical(p: Part, withReasons: bool)
  {
    IsLower(p.color) && (withReasons || p.reasons == [])
  }

  lemma PartRoundTrip(p: Part, withReasons: bool)
    requires Canonical(p, withReasons)
    ensures DecodePart(EncodePart(p), withReasons) == Some(p)
  {
    StrListRoundTrip(p.reasons);
    LowerFixed(p.color);
    EncodedStrings(p);
    EncodedOthers(p);
  }

  /** What the loader reads back from the dict of a part. */
  lemma EncodedStrings(p: Part)
    ensures var e := EncodePart(p);
      GetStr(e, "id") == Some(p.id) && GetStr(e, "cor") == Some(p.color) && GetStr(e, "timestamp") == Some(p.timestamp)
  {
  }

  lemma EncodedOthers(p: Part)
    ensures var e := EncodePart(p);
      GetReal(e, "peso") == Some(p.weight) && GetReal(e, "comprimento") == Some(p.length)
      && GetBool(e, "aprovada") == Some(p.approved) && Get(e, "motivos_reprovacao") == Some(StrList(p.reasons))
  {
  }

  lemma {:induction false} PartsRoundTrip(ps: seq<Part>, withReasons: bool)
    requires forall i :: 0 <= i < |ps| ==> Canonical(ps[i], withReasons)
    ensures DecodeParts(EncodeParts(ps), withReasons) == (ps, true)
  {
    if ps != [] {
      var init := ps[..|ps| - 1];
      var vs := EncodeParts(ps);
      assert vs[..|vs| - 1] == EncodeParts(init);
      PartsRoundTrip(init, withReasons);
      PartRoundTrip(ps[|ps| - 1], withReasons);
      SplitLast(ps);
    }
  }

  predicate BoxCanonical(b: BoxRecord)
  {
    forall i :: 0 <= i < |b.parts| ==> Canonical(b.parts[i], false)
  }

  lemma BoxRoundTrip(b: BoxRecord)
    requires BoxCanonical(b)
    ensures DecodeBox(EncodeBox(b)) == Some(b)
  {
    EncodedBox(b);
    PartsRoundTrip(b.parts, false);
  }

  /** What the loader reads back from the dict of a box. */
  lemma EncodedBox(b: BoxRecord)
    ensures var e := EncodeBox(b);
      e.Obj? && Get(e, "numero") == Some(Int(b.number)) && Get(e, "data_fechamento") == Some(OptStr(b.closedAt))
      && Get(e, "pecas") == Some(Arr(EncodeParts(b.parts)))
  {
  }

  lemma {:induction false} BoxesRoundTrip(bs: seq<BoxRecord>)
    requires forall i :: 0 <= i < |bs| ==> BoxCanonical(bs[i])
    ensures DecodeBoxes(EncodeBoxes(bs)) == (bs, true)
  {
    if bs != [] {
      var init := bs[..|bs| - 1];
      var vs := EncodeBoxes(bs);
      assert vs[..|vs| - 1] == EncodeBoxes(init);
      BoxesRoundTrip(init);
      BoxRoundTrip(bs[|bs| - 1]);
      SplitLast(bs);
    }
  }

  /** Every part in the ledger reads back as itself. */
  predicate StockCanonical(s: Stock)
  {
    (forall i :: 0 <= i < |s.approved| ==> Canonical(s.approved[i], false))
    && (forall i :: 0 <= i < |s.rejected| ==> Canonical(s.rejected[i], true))
    && (forall i :: 0 <= i < |s.closed| ==> BoxCanonical(s.closed[i]))
    && BoxCanonical(s.current)
  }

  /** Loading what was saved gives the ledger back, except that the current
      box comes back open. */
  lemma DocumentRoundTrip(s: Stock)
    requires StockCanonical(s)
    ensures LoadDocument(Document(s)) == s.(current := s.current.(closedAt := None))
  {
    var d := Document(s);
    DocumentSections(s);
    PartsRoundTrip(s.approved, false);
    assert LoadDocument(d) == LoadRejected(d, s.approved);
    PartsRoundTrip(s.rejected, true);
    assert LoadRejected(d, s.approved) == LoadClosed(d, s.approved, s.rejected);
    BoxesRoundTrip(s.closed);
    var s3 := Stock(s.approved, s.rejected, s.closed, EmptyBox(1));
    assert LoadClosed(d, s.approved, s.rejected) == LoadCurrent(EncodeBox(s.current), s3);
    CurrentRoundTrip(s.current, s3);
  }

  /** What the loader finds under each key of a saved document. */
  lemma DocumentSections(s: Stock)
    ensures var d := Document(s);
      d.Obj? && ItemsOf(Get(d, "pecas_aprovadas")) == Some(EncodeParts(s.approved))
      && ItemsOf(Get(d, "pecas_reprovadas")) == Some(EncodeParts(s.rejected))
      && ItemsOf(Get(d, "caixas_fechadas")) == Some(EncodeBoxes(s.closed))
      && Get(d, "caixa_atual").GetOr(Obj(map[])) == EncodeBox(s.current)
  {
    var d := Document(s);
    assert Get(d, "pecas_aprovadas") == Some(Arr(EncodeParts(s.approved)));
    assert Get(d, "pecas_reprovadas") == Some(Arr(EncodeParts(s.rejected)));
    assert Get(d, "caixas_fechadas") == Some(Arr(EncodeBoxes(s.closed)));
    assert Get(d, "caixa_atual") == Some(EncodeBox(s.current));
  }

  lemma CurrentRoundTrip(b: BoxRecord, s3: Stock)
    requires BoxCanonical(b)
    ensures LoadCurrent(EncodeBox(b), s3) == s3.(current := b.(closedAt := None))
  {
    EncodedBox(b);
    PartsRoundTrip(b.parts, false);
  }

  /** Inspection keeps the ledger as the loader rebuilds it, so what the
      system saves after each inspection loads back. */
  lemma InspectKeepsCanonical(s: Stock, id: string, weight: Float, color: string, length: Float, now: string)
    requires StockCanonical(s)
    ensures StockCanonical(InspectPart(s, id, weight, color, length, now).2)
  {
    var p := Validate(NewPart(id, weight, color, length, now));
    LowerIsLower(color);
    if p.approved {
      PackCanonical(s.closed, s.current, p, now);
    }
  }

  lemma PackCanonical(closed: seq<BoxRecord>, current: BoxRecord, p: Part, now: string)
    requires forall i :: 0 <= i < |closed| ==> BoxCanonical(closed[i])
    requires BoxCanonical(current) && Canonical(p, false)
    ensures var r := Pack(closed, current, p, now);
      (forall i :: 0 <= i < |r.0| ==> BoxCanonical(r.0[i])) && BoxCanonical(r.1)
  {
    var first := Put(current, p, now);
    var closed1 := if first.0 then closed else closed + [current];
    var cur1 := if first.0 then first.1 else Put(EmptyBox(|closed1| + 1), p, now).1;
    assert BoxCanonical(cur1);
  }

  // ------------------------------------------------------------------------
  // CSV export (exportar_relatorio_csv)

  type Row = seq<string>

  const Header: Row := ["ID", "Peso (g)", "Cor", "Comprimento (cm)", "Status", "Data/Hora", "Motivos Reprovação"]

  /** One CSV line for a part: its fields as `str()` prints them, the
      status, and the reasons joined with " | " for a rejected part. */
  function PartRow(p: Part, status: string, reasons: string): (r: Row)
    ensures |r| == |Header| && r[0] == p.id && r[4] == status && r[6] == reasons
  {
    [p.id, p.weight.repr, p.color, p.length.repr, status, p.timestamp, reasons]
  }

  function ApprovedRows(ps: seq<Part>): (rows: seq<Row>)
    ensures |rows| == |ps| && forall i :: 0 <= i < |ps| ==> rows[i] == PartRow(ps[i], "APROVADA", "")
  {
    seq(|ps|, i requires 0 <= i < |ps| => PartRow(ps[i], "APROVADA", ""))
  }

  function RejectedRows(ps: seq<Part>): (rows: seq<Row>)
    ensures |rows| == |ps|
    ensures forall i :: 0 <= i < |ps| ==> rows[i] == PartRow(ps[i], "REPROVADA", Join(ps[i].reasons, " | "))
  {
    seq(|ps|, i requires 0 <= i < |ps| => PartRow(ps[i], "REPROVADA", Join(ps[i].reasons, " | ")))
  }

  /** The rows written: the header, every approved part, every rejected part. */
  function CsvRows(s: Stock): seq<Row>
  {
    [Header] + ApprovedRows(s.approved) + RejectedRows(s.rejected)
  }

  /** The CSV has one line per inspected part below the header, each with
      the seven columns; the approved parts come first, in order, then the
      rejected ones in order with their reasons. */
  lemma CsvLayout(s: Stock)
    ensures var rows := CsvRows(s);
      |rows| == 1 + |s.approved| + |s.rejected| && rows[0] == Header
      && (forall k :: 0 <= k < |rows| ==> |rows[k]| == 7)
      && (forall i :: 0 <= i < |s.approved| ==>
            rows[1 + i][0] == s.approved[i].id && rows[1 + i][4] == "APROVADA" && rows[1 + i][6] == "")
      && (forall j :: 0 <= j < |s.rejected| ==>
            rows[1 + |s.approved| + j][0] == s.rejected[j].id && rows[1 + |s.approved| + j][4] == "REPROVADA"
            && rows[1 + |s.approved| + j][6] == Join(s.rejected[j].reasons, " | "))
  {
  }

  // ------------------------------------------------------------------------
  // The system object

  class System {
    var approved: seq<Part>
    var rejected: seq<Part>
    var closed: seq<BoxRecord>
    var current: Box
    var file: FileContent

    function Contents(): Stock
      reads this, current
    {
      Stock(approved, rejected, closed, current.Record())
    }

    /** `SistemaControleQualidade()`: the empty ledger, then `carregar_dados`
        from the data file as it is on disk. */
    constructor (file: FileContent)
      ensures this.file == file
      ensures Contents() == Loaded(file)
    {
      approved, rejected, closed := [], [], [];
      current := new Box(1);
      this.file := file;
      new;
      if file.Parsed? {
        Load();
      }
    }

    /** The body of the `try` in `carregar_dados`, on the empty ledger. */
    method Load()
      requires file.Parsed? && Contents() == Initial
      modifies this
      ensures file == old(file)
      ensures Contents() == LoadDocument(file.value)
    {
      var d := file.value;
      var a := ItemsOf(Get(d, "pecas_aprovadas"));
      if !d.Obj? || a.None? {
        return;
      }
      var ok;
      approved, ok := DecodeAll(a.value, false);
      var r := ItemsOf(Get(d, "pecas_reprovadas"));
      if !ok || r.None? {
        return;
      }
      rejected, ok := DecodeAll(r.value, true);
      var c := ItemsOf(Get(d, "caixas_fechadas"));
      if !ok || c.None? {
        return;
      }
      closed, ok := DecodeAllBoxes(c.value);
      var atual := Get(d, "caixa_atual").GetOr(Obj(map[]));
      var number := GetIntOr(atual, "numero", |closed| + 1);
      if !ok || !atual.Obj? || number.None? {
        return;
      }
      var box := new Box(number.value);
      var items := ItemsOf(Get(atual, "pecas"));
      if items.Some? {
        var ps, _ := DecodeAll(items.value, false);
        box.parts := ps;
      }
      current := box;
    }

    /** `salvar_dados`. */
    method Save()
      modifies this
      ensures approved == old(approved) && rejected == old(rejected) && closed == old(closed)
      ensures current == old(current)
      ensures file == Parsed(Document(Contents()))
    {
      file := Parsed(Document(Contents()));
    }

    /** `inspecionar_peca(id_peca, peso, cor, comprimento)` at time `now`; the
        document is saved either way. */
    method Inspect(id: string, weight: Float, color: string, length: Float, now: string)
      returns (ok: bool, msg: string)
      modifies this, current
      ensures (ok, msg, Contents()) == InspectPart(old(Contents()), id, weight, color, length, now)
      ensures file == Parsed(Document(Contents()))
    {
      var p := Validate(NewPart(id, weight, color, length, now));
      if p.approved {
        approved := approved + [p];
        PackPart(p, now);
        Save();
        return true, ApprovedMessage;
      }
      rejected := rejected + [p];
      Save();
      return false, RejectedMessage(p.reasons);
    }

    /** The rollover of `inspecionar_peca` for an approved part. */
    method PackPart(p: Part, now: string)
      modifies this, current
      ensures approved == old(approved) && rejected == old(rejected) && file == old(file)
      ensures (closed, current.Record()) == Pack(old(closed), old(current.Record()), p, now)
    {
      var placed := current.Add(p, now);
      if !placed {
        closed := closed + [current.Record()];
        var box := new Box(|closed| + 1);
        placed := box.Add(p, now);
        current := box;
      }
      if current.IsFull() {
        closed := closed + [current.Record()];
        current := new Box(|closed| + 1);
      }
    }

    /** `gerar_relatorio_completo()` at time `now`. */
    method GenerateReport(now: string) returns (r: Report)
      ensures r == ReportOf(Contents(), now)
    {
      r := Report(now, |approved|, |rejected|, |approved| + |rejected|, |closed|,
                  current.number, |current.parts|, current.FreeSlots(), rejected, closed);
    }

    /** `limpar_dados`: the empty ledger, and no data file. */
    method Clear()
      modifies this
      ensures Contents() == Initial && file == Missing
    {
      approved, rejected, closed := [], [], [];
      current := new Box(1);
      file := Missing;
    }

    /** The rows `exportar_relatorio_csv` hands the CSV writer. */
    method ExportRows() returns (rows: seq<Row>)
      ensures rows == CsvRows(Contents())
    {
      var a, j := approved, rejected;
      rows := [Header];
      for i := 0 to |a|
        invariant rows == [Header] + ApprovedRows(a[..i])
      {
        assert ApprovedRows(a[..i + 1]) == ApprovedRows(a[..i]) + [PartRow(a[i], "APROVADA", "")];
        rows := rows + [PartRow(a[i], "APROVADA", "")];
      }
      assert a[..|a|] == a;
      for i := 0 to |j|
        invariant rows == [Header] + ApprovedRows(a) + RejectedRows(j[..i])
      {
        var motivos := Join(j[i].reasons, " | ");
        assert RejectedRows(j[..i + 1]) == RejectedRows(j[..i]) + [PartRow(j[i], "REPROVADA", motivos)];
        rows := rows + [PartRow(j[i], "REPROVADA", motivos)];
      }
      assert j[..|j|] == j;
    }
  }

  /** A `for p_dict in …` loop of `carregar_dados`: appends each decoded part
      and stops at the first entry that raises. */
  method DecodeAll(vs: seq<Value>, withReasons: bool) returns (ps: seq<Part>, ok: bool)
    ensures (ps, ok) == DecodeParts(vs, withReasons)
  {
    ps, ok := [], true;
    var i := 0;
    while i < |vs| && ok
      invariant 0 <= i <= |vs|
      invariant (ps, ok) == DecodeParts(vs[..i], withReasons)
    {
      assert vs[..i + 1][..i] == vs[..i];
      var p := DecodePart(vs[i], withReasons);
      if p.Some? {
        ps := ps + [p.value];
      } else {
        ok := false;
      }
      i := i + 1;
    }
    if ok {
      assert vs[..i] == vs;
    } else {
      DecodePartsStops(vs, i, withReasons);
    }
  }

  /** The `for c_dict in dados.get('caixas_fechadas', [])` loop. */
  method DecodeAllBoxes(vs: seq<Value>) returns (bs: seq<BoxRecord>, ok: bool)
    ensures (bs, ok) == DecodeBoxes(vs)
  {
    bs, ok := [], true;
    var i := 0;
    while i < |vs| && ok
      invariant 0 <= i <= |vs|
      invariant (bs, ok) == DecodeBoxes(vs[..i])
    {
      assert vs[..i + 1][..i] == vs[..i];
      var b := DecodeBox(vs[i]);
      if b.Some? {
        bs := bs + [b.value];
      } else {
        ok := false;
      }
      i := i + 1;
    }
    if ok {
      assert vs[..i] == vs;
    } else {
      DecodeBoxesStops(vs, i);
    }
  }

  lemma {:induction false} DecodePartsStops(vs: seq<Value>, i: nat, withReasons: bool)
    requires i <= |vs| && !DecodeParts(vs[..i], withReasons).1
    ensures DecodeParts(vs, withReasons) == DecodeParts(vs[..i], withReasons)
    decreases |vs| - i
  {
    if i < |vs| {
      var w := vs[..i + 1];
      assert w[..|w| - 1] == vs[..i];
      assert DecodeParts(w, withReasons) == DecodeParts(vs[..i], withReasons);
      DecodePartsStops(vs, i + 1, withReasons);
    } else {
      assert vs[..i] == vs;
    }
  }

  lemma {:induction false} DecodeBoxesStops(vs: seq<Value>, i: nat)
    requires i <= |vs| && !DecodeBoxes(vs[..i]).1
    ensures DecodeBoxes(vs) == DecodeBoxes(vs[..i])
    decreases |vs| - i
  {
    if i < |vs| {
      var w := vs[..i + 1];
      assert w[..|w| - 1] == vs[..i];
      assert DecodeBoxes(w) == DecodeBoxes(vs[..i]);
      DecodeBoxesStops(vs, i + 1);
    } else {
      assert vs[..i] == vs;
    }
  }
}
