/** Version 0.14 (tests/v014-beta.py). Parts, boxes, packing and the two JSON
    documents are those of v0.14.1 and are taken from V0141; this version has
    its own reason texts and messages, records removals and logins in the
    audit trail, filters parts by date and reports on a period against a
    daily goal, and lets administrators update and delete users. */
module V014 {
  import opened Common
  import opened Text
  import opened Json
  import opened Stats
  import opened Credentials
  import Users
  import Audit
  import V0141

  type Part = V0141.Part
  type Criteria = V0141.Criteria
  type Stock = V0141.Stock

  /** The configuration values the engine reads: `criterios_qualidade`,
      `capacidade_caixa` and `metas.diaria`. */
  datatype Config = Config(criteria: Criteria, capacity: int, dailyGoal: int)

  const DefaultDailyGoal: int := 500
  const DefaultConfig: Config := Config(V0141.DefaultCriteria, V0141.DefaultCapacity, DefaultDailyGoal)

  // ------------------------------------------------------------------------
  // validar, with this version's reason texts

  function WeightReason(p: Part, c: Criteria): string
  {
    "Peso" + (": " + p.weight.repr + "g (esperado: " + c.weightMin.repr + "-" + c.weightMax.repr + "g)")
  }

  function ColorReason(p: Part, c: Criteria): string
  {
    "Cor" + (": " + p.color + " (esperado: " + Join(c.colors, ", ") + ")")
  }

  function LengthReason(p: Part, c: Criteria): string
  {
    "Comprimento" + (": " + p.length.repr + "cm (esperado: " + c.lengthMin.repr + "-" + c.lengthMax.repr + "cm)")
  }

  function Reason(p: Part, c: Criteria, k: Check): string
  {
    match k
    case Weight => WeightReason(p, c)
    case Color => ColorReason(p, c)
    case Length => LengthReason(p, c)
  }

  /** `validar`: one reason per failed check, in check order; the part is
      approved exactly when it fails none. Nothing else about it changes. */
  function Validate(p: Part, c: Criteria): (r: Part)
    ensures r == p.(approved := r.approved, reasons := r.reasons)
    ensures r.approved <==> V0141.WeightOk(p, c) && V0141.ColorOk(p, c) && V0141.LengthOk(p, c)
    ensures r.approved <==> r.reasons == []
    ensures |r.reasons| == |V0141.Failed(p, c)|
    ensures forall i :: 0 <= i < |r.reasons| ==> r.reasons[i] == Reason(p, c, V0141.Failed(p, c)[i])
  {
    var reasons := (if V0141.WeightOk(p, c) then [] else [WeightReason(p, c)])
                   + (if V0141.ColorOk(p, c) then [] else [ColorReason(p, c)])
                   + (if V0141.LengthOk(p, c) then [] else [LengthReason(p, c)]);
    p.(approved := reasons == [], reasons := reasons)
  }

  /** Every reason `validar` writes names its check, so that the report's
      substring test files it under that same check. */
  lemma ReasonsClassified(p: Part, c: Criteria, k: Check)
    requires V0141.PlainCriteria(c) && Plain(p.weight.repr) && Plain(p.length.repr) && IsLower(p.color)
    ensures Classify(Reason(p, c, k)) == Some(k)
  {
    match k
    case Weight =>
      WeightReasonClassified(": " + p.weight.repr + "g (esperado: " + c.weightMin.repr + "-" + c.weightMax.repr + "g)");
    case Color =>
      LowerLacks(p.color, 'P');
      JoinLacks(c.colors, ", ", 'P');
      ColorReasonClassified(": " + p.color + " (esperado: " + Join(c.colors, ", ") + ")");
    case Length =>
      LengthReasonClassified(": " + p.length.repr + "cm (esperado: " + c.lengthMin.repr + "-" + c.lengthMax.repr + "cm)");
  }

  // ------------------------------------------------------------------------
  // adicionar_peca and remover_peca

  /** `adicionar_peca`: a duplicate ID is refused and nothing changes; any
      other part is validated against the configured criteria and appended to
      exactly one of the two lists, the approved one exactly when it passes,
      and an approved part is packed. */
  function AddPart(s: Stock, p: Part, config: Config, now: string): (r: (bool, Stock))
    ensures r.0 <==> !V0141.Known(s, p.id)
    ensures !r.0 ==> r.1 == s
    ensures r.0 && Validate(p, config.criteria).approved ==>
              r.1.approved == s.approved + [Validate(p, config.criteria)] && r.1.rejected == s.rejected
              && (r.1.closed, r.1.current) == V0141.Pack(s.closed, s.current, Validate(p, config.criteria), config.capacity, now)
    ensures r.0 && !Validate(p, config.criteria).approved ==>
              r.1 == s.(rejected := s.rejected + [Validate(p, config.criteria)])
  {
    if V0141.Known(s, p.id) then (false, s)
    else
      var v := Validate(p, config.criteria);
      if v.approved then
        var packed := V0141.Pack(s.closed, s.current, v, config.capacity, now);
        (true, V0141.Stock(s.approved + [v], s.rejected, packed.0, packed.1))
      else (true, s.(rejected := s.rejected + [v]))
  }

  /** Adding keeps each list to its verdict, never rewrites a closed box,
      and with a capacity of at least 1 keeps room in the current box and
      packs exactly the newly approved part. */
  lemma AddKeepsStock(s: Stock, p: Part, config: Config, now: string)
    requires V0141.Flagged(s)
    ensures var r := AddPart(s, p, config, now).1;
      V0141.Flagged(r) && |s.closed| <= |r.closed| && r.closed[..|s.closed|] == s.closed
      && (config.capacity >= 1 && !V0141.Full(s.current) ==>
            !V0141.Full(r.current)
            && V0141.Packed(r.closed, r.current) ==
               V0141.Packed(s.closed, s.current) + (if |r.approved| > |s.approved| then [Validate(p, config.criteria)] else []))
  {
    var v := Validate(p, config.criteria);
    if !V0141.Known(s, p.id) && v.approved {
      V0141.PackSpec(s.closed, s.current, v, config.capacity, now);
    } else {
      assert s.closed[..|s.closed|] == s.closed;
    }
  }

  /** The audit entry `remover_peca` writes for a removal by `user`. */
  function RemovalEntry(now: string, user: string, key: string, justification: string): Audit.AuditEntry
  {
    Audit.AuditEntry(now, user, "REMOVER_PECA", "ID: " + key + " - " + justification)
  }

  // ------------------------------------------------------------------------
  // filtrar_pecas_por_data

  /** The clock functions the filter relies on, as parameters: `strptime` of a
      part's "%Y-%m-%d %H:%M:%S" timestamp and of a "%Y-%m-%d" day, each as a
      number of seconds and `None` where strptime raises. */
  datatype Calendar = Calendar(stamp: string -> Option<int>, day: string -> Option<int>)

  /** One day, the `timedelta(days=1)` added to the end date. */
  const DaySeconds: int := 86400

  /** A period bound as the filter tests it: present and non-empty. */
  predicate Given(bound: Option<string>)
  {
    bound.Some? && bound.value != ""
  }

  /** The part is kept: its timestamp parses, it is not before the start day
      and it is before the day after the end day. A bound that does not parse
      raises inside the same `try`, dropping the part. */
  function InPeriod(p: Part, start: Option<string>, end: Option<string>, cal: Calendar): (b: bool)
    ensures b ==> cal.stamp(p.timestamp).Some?
    ensures (Given(start) && cal.day(start.value).None?) || (Given(end) && cal.day(end.value).None?) ==> !b
    ensures !Given(start) && !Given(end) ==> (b <==> cal.stamp(p.timestamp).Some?)
  {
    var t := cal.stamp(p.timestamp);
    t.Some?
    && (Given(start) ==> cal.day(start.value).Some? && t.value >= cal.day(start.value).value)
    && (Given(end) ==> cal.day(end.value).Some? && t.value < cal.day(end.value).value + DaySeconds)
  }

  /** The parts of the period, in their order. */
  function InPeriodParts(ps: seq<Part>, start: Option<string>, end: Option<string>, cal: Calendar)
    : (r: seq<Part>)
    ensures forall i :: 0 <= i < |r| ==> r[i] in ps && InPeriod(r[i], start, end, cal)
  {
    if ps == [] then []
    else
      InPeriodParts(ps[..|ps| - 1], start, end, cal)
      + (if InPeriod(ps[|ps| - 1], start, end, cal) then [ps[|ps| - 1]] else [])
  }

  /** `filtrar_pecas_por_data`: with no bound every part, timestamps unread;
      otherwise the parts of the period. */
  function Filtered(ps: seq<Part>, start: Option<string>, end: Option<string>, cal: Calendar): (r: seq<Part>)
    ensures !Given(start) && !Given(end) ==> r == ps
    ensures Given(start) || Given(end) ==> forall i :: 0 <= i < |r| ==> r[i] in ps && InPeriod(r[i], start, end, cal)
  {
    if !Given(start) && !Given(end) then ps else InPeriodParts(ps, start, end, cal)
  }

  /** The period filter keeps exactly the parts of the period. */
  lemma {:induction false} InPeriodPartsMembers(ps: seq<Part>, start: Option<string>, end: Option<string>,
                                                  cal: Calendar, x: Part)
    ensures x in InPeriodParts(ps, start, end, cal) <==> x in ps && InPeriod(x, start, end, cal)
  {
    if ps != [] {
      var init := ps[..|ps| - 1];
      InPeriodPartsMembers(init, start, end, cal, x);
      assert ps == init + [ps[|ps| - 1]];
    }
  }

  /** A part is kept, with a bound given, exactly when it lies in the period;
      with none the list is returned as it is. */
  lemma FilterSpec(ps: seq<Part>, start: Option<string>, end: Option<string>, cal: Calendar, x: Part)
    ensures !Given(start) && !Given(end) ==> Filtered(ps, start, end, cal) == ps
    ensures Given(start) || Given(end) ==>
              (x in Filtered(ps, start, end, cal) <==> x in ps && InPeriod(x, start, end, cal))
  {
    InPeriodPartsMembers(ps, start, end, cal, x);
  }

  /** The filter never adds a part. */
  lemma {:induction false} FilterShrinks(ps: seq<Part>, start: Option<string>, end: Option<string>, cal: Calendar)
    ensures |InPeriodParts(ps, start, end, cal)| <= |ps|
    ensures |Filtered(ps, start, end, cal)| <= |ps|
  {
    if ps != [] {
      FilterShrinks(ps[..|ps| - 1], start, end, cal);
    }
  }

  /** A bound that does not parse empties the result. */
  lemma {:induction false} BadBoundFiltersAll(ps: seq<Part>, start: Option<string>, end: Option<string>, cal: Calendar)
    requires (Given(start) && cal.day(start.value).None?) || (Given(end) && cal.day(end.value).None?)
    ensures Filtered(ps, start, end, cal) == []
  {
    if ps != [] {
      BadBoundFiltersAll(ps[..|ps| - 1], start, end, cal);
    }
  }

  /** The loop of `filtrar_pecas_por_data`. */
  method FilterByDate(ps: seq<Part>, start: Option<string>, end: Option<string>, cal: Calendar)
    returns (r: seq<Part>)
    ensures r == Filtered(ps, start, end, cal)
  {
    if !Given(start) && !Given(end) {
      return ps;
    }
    r := [];
    for i := 0 to |ps|
      invariant r == InPeriodParts(ps[..i], start, end, cal)
    {
      assert ps[..i + 1][..i] == ps[..i];
      var t := cal.stamp(ps[i].timestamp);
      if t.None? {
        continue;
      }
      if Given(start) {
        var d := cal.day(start.value);
        if d.None? || t.value < d.value {
          continue;
        }
      }
      if Given(end) {
        var d := cal.day(end.value);
        if d.None? || t.value >= d.value + DaySeconds {
          continue;
        }
      }
      r := r + [ps[i]];
    }
    assert ps[..|ps|] == ps;
  }

  // ------------------------------------------------------------------------
  // gerar_relatorio over a period

  /** The dict `gerar_relatorio(data_inicio, data_fim)` returns; `rate` is the
      approval percentage before Python rounds it to two places. */
  datatype Report = Report(generatedAt: string, periodStart: string, periodEnd: string,
                           approvedCount: nat, rejectedCount: nat, inspected: nat, rate: real,
                           completeBoxes: nat, current: V0141.BoxSummary,
                           shifts: seq<ShiftRow>, reasons: Counts,
                           approvedDetails: seq<Value>, rejectedDetails: seq<Value>,
                           dailyGoal: int, progress: real)

  /** `data_inicio or 'Início'`, `data_fim or 'Hoje'`. */
  function BoundLabel(bound: Option<string>, default: string): string
  {
    if Given(bound) then bound.value else default
  }

  /** `gerar_relatorio`; `None` where `percentual_cheio` of the current box
      divides by zero. */
  function ReportOf(s: Stock, config: Config, start: Option<string>, end: Option<string>, cal: Calendar,
                    now: string): (r: Option<Report>)
    ensures r.None? <==> s.current.capacity == 0
    ensures r.Some? ==> r.value.generatedAt == now
                        && r.value.periodStart == (if Given(start) then start.value else "Início")
                        && r.value.periodEnd == (if Given(end) then end.value else "Hoje")
  {
    if s.current.capacity == 0 then None
    else Some(ReportOn(s, Filtered(s.approved, start, end, cal), Filtered(s.rejected, start, end, cal),
                       config, BoundLabel(start, "Início"), BoundLabel(end, "Hoje"), now))
  }

  /** The report on the parts of the period, `approved` and `rejected`. */
  function ReportOn(s: Stock, approved: seq<Part>, rejected: seq<Part>, config: Config,
                    startLabel: string, endLabel: string, now: string): (r: Report)
    requires s.current.capacity != 0
    ensures r.approvedCount == |approved| && r.rejectedCount == |rejected|
    ensures r.inspected == |approved| + |rejected| && r.completeBoxes == |s.closed|
    ensures r.generatedAt == now && r.periodStart == startLabel && r.periodEnd == endLabel
  {
    var total := |approved| + |rejected|;
    var rate := if total > 0 then Percent(|approved|, total) else 0.0;
    var c := s.current;
    var goal := config.dailyGoal;
    Report(now, startLabel, endLabel, |approved|, |rejected|, total, rate, |s.closed|,
           V0141.BoxSummary(c.number, |c.parts|, V0141.Vacancies(c), c.capacity,
                            Percent(|c.parts|, c.capacity)),
           ShiftTable(V0141.Marks(approved + rejected)), Histogram(V0141.AllReasons(rejected), Short),
           V0141.EncodeParts(KeepLast(approved, 100)), V0141.EncodeParts(KeepLast(rejected, 100)),
           goal, if goal > 0 then Percent(|approved|, goal) else 0.0)
  }

  /** The report counts the parts of the period: no more than the ledger
      holds, and all of them when no bound is given. */
  lemma ReportCoversPeriod(s: Stock, config: Config, start: Option<string>, end: Option<string>, cal: Calendar,
                           now: string)
    requires s.current.capacity != 0
    ensures var r := ReportOf(s, config, start, end, cal, now).value;
      r.approvedCount == |Filtered(s.approved, start, end, cal)|
      && r.rejectedCount == |Filtered(s.rejected, start, end, cal)|
      && r.approvedCount <= |s.approved| && r.rejectedCount <= |s.rejected|
      && (!Given(start) && !Given(end) ==>
            r.approvedCount == |s.approved| && r.rejectedCount == |s.rejected|
            && r.periodStart == "Início" && r.periodEnd == "Hoje")
  {
    FilterShrinks(s.approved, start, end, cal);
    FilterShrinks(s.rejected, start, end, cal);
  }

  /** The period report's figures: the rate is a percentage that is 0
      exactly when nothing is approved, the shift table and the histogram
      count every part and reason of the period once, and the goal progress
      reaches 100 exactly when the approved parts reach a positive goal. */
  lemma ReportConsistent(s: Stock, approved: seq<Part>, rejected: seq<Part>, config: Config,
                         startLabel: string, endLabel: string, now: string, shift: string, k: Check)
    requires s.current.capacity != 0
    ensures var r := ReportOn(s, approved, rejected, config, startLabel, endLabel, now);
      var all := approved + rejected;
      r.inspected == r.approvedCount + r.rejectedCount
      && 0.0 <= r.rate <= 100.0 && (r.rate == 0.0 <==> r.approvedCount == 0)
      && Balanced(r.shifts) && RowsTotal(r.shifts) == r.inspected
      && RowOf(r.shifts, shift) == (multiset(V0141.Marks(all))[(shift, true)], multiset(V0141.Marks(all))[(shift, false)])
      && Count(r.reasons, Label(Short, k)) == Tagged(V0141.AllReasons(rejected), Some(k))
      && (config.dailyGoal <= 0 ==> r.progress == 0.0)
      && (config.dailyGoal > 0 ==> r.progress >= 0.0 && (r.progress >= 100.0 <==> r.approvedCount >= config.dailyGoal))
  {
    var all := approved + rejected;
    ShiftTableSums(V0141.Marks(all));
    ShiftTableCounts(V0141.Marks(all), shift);
    HistogramCounts(V0141.AllReasons(rejected), Short, k);
    if |all| > 0 {
      PercentBounds(|approved|, |all|);
    }
    if config.dailyGoal > 0 {
      PercentOfGoal(|approved|, config.dailyGoal);
    }
  }

  // ------------------------------------------------------------------------
  // The ledger (BancoDados)

  class Ledger {
    var config: Config
    var approved: seq<Part>
    var rejected: seq<Part>
    var closed: seq<V0141.BoxRecord>
    var current: V0141.Box
    var partsFile: FileContent
    var boxesFile: FileContent

    function Contents(): Stock
      reads this, current
    {
      V0141.Stock(approved, rejected, closed, current.Record())
    }

    /** `BancoDados()`: empty lists and box 1 with the configured capacity,
        then `carregar_dados`. */
    constructor (config: Config, partsFile: FileContent, boxesFile: FileContent, now: string)
      ensures this.config == config && this.partsFile == partsFile && this.boxesFile == boxesFile
      ensures Contents() == V0141.Loaded(V0141.Stock([], [], [], V0141.EmptyBox(1, config.capacity, now)),
                                         config.capacity, partsFile, boxesFile, now)
    {
      this.config := config;
      approved, rejected, closed := [], [], [];
      current := new V0141.Box(1, config.capacity, now);
      this.partsFile, this.boxesFile := partsFile, boxesFile;
      new;
      Load(now);
    }

    /** `carregar_dados`, which reads the documents as v0.14.1 does. */
    method Load(now: string)
      modifies this
      ensures config == old(config) && partsFile == old(partsFile) && boxesFile == old(boxesFile)
      ensures Contents() == V0141.Loaded(old(Contents()), config.capacity, partsFile, boxesFile, now)
    {
      if partsFile.Parsed? {
        LoadPartsFile();
      }
      if boxesFile.Parsed? {
        LoadBoxesFile(now);
      }
    }

    method LoadPartsFile()
      requires partsFile.Parsed?
      modifies this
      ensures config == old(config) && partsFile == old(partsFile) && boxesFile == old(boxesFile)
      ensures closed == old(closed) && current == old(current)
      ensures (approved, rejected) == V0141.LoadParts(partsFile.value)
    {
      var d := partsFile.value;
      approved, rejected := [], [];
      var a := ItemsOf(Get(d, "aprovadas"));
      if d.Obj? && a.Some? {
        var ok;
        approved, ok := V0141.DecodeAll(a.value, false);
        var r := ItemsOf(Get(d, "reprovadas"));
        if ok && r.Some? {
          rejected, ok := V0141.DecodeAll(r.value, true);
        }
      }
    }

    method LoadBoxesFile(now: string)
      requires boxesFile.Parsed?
      modifies this
      ensures config == old(config) && partsFile == old(partsFile) && boxesFile == old(boxesFile)
      ensures approved == old(approved) && rejected == old(rejected)
      ensures (closed, current.Record()) == V0141.LoadBoxes(boxesFile.value, config.capacity, old(current.Record()), now)
    {
      var d := boxesFile.value;
      closed := [];
      var f := ItemsOf(Get(d, "fechadas"));
      if d.Obj? && f.Some? {
        var ok;
        closed, ok := V0141.DecodeAllBoxes(f.value, config.capacity);
        var atual := Get(d, "atual").GetOr(Obj(map[]));
        var cap := GetIntOr(atual, "capacidade", config.capacity);
        var number := GetIntOr(atual, "numero", |closed| + 1);
        if ok && atual.Obj? && cap.Some? && number.Some? {
          var box := new V0141.Box(number.value, cap.value, now);
          var items := ItemsOf(Get(atual, "pecas"));
          if items.Some? {
            var ps, _ := V0141.DecodeAll(items.value, false);
            box.parts := ps;
          }
          current := box;
        }
      }
    }

    /** `salvar_dados`: rewrites pecas.json, then caixas.json; the second is
        left as it was when a box of capacity 0 makes `to_dict` raise. */
    method Save(now: string)
      modifies this
      ensures config == old(config) && approved == old(approved) && rejected == old(rejected)
      ensures closed == old(closed) && current == old(current)
      ensures partsFile == Parsed(V0141.PartsDocument(Contents(), now))
      ensures boxesFile == if V0141.BoxesEncodable(Contents()) then Parsed(V0141.BoxesDocument(Contents(), now))
                           else old(boxesFile)
    {
      partsFile := Parsed(V0141.PartsDocument(Contents(), now));
      if V0141.BoxesEncodable(Contents()) {
        boxesFile := Parsed(V0141.BoxesDocument(Contents(), now));
      }
    }

    /** The rollover of `adicionar_peca` for an approved part. */
    method PackPart(v: Part, now: string)
      modifies this, current
      ensures config == old(config) && approved == old(approved) && rejected == old(rejected)
      ensures partsFile == old(partsFile) && boxesFile == old(boxesFile)
      ensures (closed, current.Record()) == V0141.Pack(old(closed), old(current.Record()), v, config.capacity, now)
    {
      var placed := current.Add(v, now);
      if !placed {
        closed := closed + [current.Record()];
        var box := new V0141.Box(|closed| + 1, config.capacity, now);
        placed := box.Add(v, now);
        current := box;
      }
      if current.IsFull() {
        closed := closed + [current.Record()];
        current := new V0141.Box(|closed| + 1, config.capacity, now);
      }
    }

    /** `adicionar_peca(peca)` at time `now`. */
    method Add(p: Part, now: string) returns (ok: bool, msg: string)
      modifies this, current
      ensures config == old(config)
      ensures (ok, Contents()) == AddPart(old(Contents()), p, config, now)
      ensures ok ==> partsFile == Parsed(V0141.PartsDocument(Contents(), now))
      ensures ok ==> boxesFile == if V0141.BoxesEncodable(Contents()) then Parsed(V0141.BoxesDocument(Contents(), now))
                                  else old(boxesFile)
      ensures !ok ==> partsFile == old(partsFile) && boxesFile == old(boxesFile)
      ensures msg == if ok then "Peça adicionada" else "ID " + p.id + " já existe"
    {
      var i := V0141.FindId(approved + rejected, p.id);
      if i >= 0 {
        return false, "ID " + p.id + " já existe";
      }
      var v := Validate(p, config.criteria);
      if v.approved {
        approved := approved + [v];
        PackPart(v, now);
      } else {
        rejected := rejected + [v];
      }
      Save(now);
      ok, msg := true, "Peça adicionada";
    }

    /** `remover_peca(id_peca, usuario, justificativa)` at time `now`: as in
        v0.14.1, and a removal is recorded in the audit trail. */
    method Remove(id: string, user: string, justification: string, now: string, log: Audit.AuditLog)
      returns (ok: bool, msg: string)
      modifies this, current, log
      ensures config == old(config) && current == old(current)
      ensures (ok, Contents()) == V0141.RemovePart(old(Contents()), id)
      ensures ok ==> partsFile == Parsed(V0141.PartsDocument(Contents(), now))
      ensures ok ==> boxesFile == if V0141.BoxesEncodable(Contents()) then Parsed(V0141.BoxesDocument(Contents(), now))
                                  else old(boxesFile)
      ensures !ok ==> partsFile == old(partsFile) && boxesFile == old(boxesFile)
      ensures msg == "Peça " + UpperStrip(id) + (if ok then " removida" else " não encontrada")
      ensures log.entries == if ok then KeepLast(old(log.entries) + [RemovalEntry(now, user, UpperStrip(id), justification)], Audit.Limit)
                             else old(log.entries)
    {
      var key := UpperStrip(id);
      ok := RemoveByKey(key, now);
      if ok {
        log.Record(now, user, "REMOVER_PECA", "ID: " + key + " - " + justification);
      }
      msg := "Peça " + key + (if ok then " removida" else " não encontrada");
    }

    method RemoveByKey(key: string, now: string) returns (ok: bool)
      modifies this, current
      ensures config == old(config) && current == old(current)
      ensures (ok, Contents()) == V0141.RemoveKey(old(Contents()), key)
      ensures ok ==> partsFile == Parsed(V0141.PartsDocument(Contents(), now))
      ensures ok ==> boxesFile == if V0141.BoxesEncodable(Contents()) then Parsed(V0141.BoxesDocument(Contents(), now))
                                  else old(boxesFile)
      ensures !ok ==> partsFile == old(partsFile) && boxesFile == old(boxesFile)
    {
      ok := Drop(key);
      if ok {
        ghost var s := Contents();
        Save(now);
        assert Contents() == s;
      }
    }

    /** The two lists and the open box without the part `key`, the files as they were. */
    method Drop(key: string) returns (ok: bool)
      modifies this, current
      ensures config == old(config) && current == old(current)
      ensures partsFile == old(partsFile) && boxesFile == old(boxesFile)
      ensures (ok, Contents()) == V0141.RemoveKey(old(Contents()), key)
    {
      ghost var s := Contents();
      V0141.KnownSplit(s, key);
      var i := V0141.FindId(approved, key);
      if i >= 0 {
        approved := approved[..i] + approved[i + 1..];
        assert approved == V0141.WithoutFirst(s.approved, key);
        current.Discard(key);
        assert Contents() == V0141.RemoveKey(s, key).1;
        return true;
      }
      var j := V0141.FindId(rejected, key);
      if j >= 0 {
        rejected := rejected[..j] + rejected[j + 1..];
        assert Contents() == V0141.RemoveKey(s, key).1;
        return true;
      }
      return false;
    }

    /** `gerar_relatorio(data_inicio, data_fim)` at time `now`. */
    method GenerateReport(start: Option<string>, end: Option<string>, cal: Calendar, now: string)
      returns (r: Option<Report>)
      ensures r == ReportOf(Contents(), config, start, end, cal, now)
    {
      if current.capacity == 0 {
        return None;
      }
      var a := FilterByDate(approved, start, end, cal);
      var j := FilterByDate(rejected, start, end, cal);
      var report := ReportOnPeriod(Contents(), config, a, j, BoundLabel(start, "Início"), BoundLabel(end, "Hoje"), now);
      r := Some(report);
    }
  }

  /** The body of `gerar_relatorio` once the parts of the period are chosen. */
  method ReportOnPeriod(s: Stock, config: Config, a: seq<Part>, j: seq<Part>, startLabel: string, endLabel: string,
                        now: string) returns (r: Report)
    requires s.current.capacity != 0
    ensures r == ReportOn(s, a, j, config, startLabel, endLabel, now)
  {
    var total := |a| + |j|;
    var rate := if total > 0 then Percent(|a|, total) else 0.0;
    var shifts := V0141.TallyShifts(a + j);
    var reasons := V0141.TallyReasons(j);
    var c := s.current;
    var summary := V0141.BoxSummary(c.number, |c.parts|, V0141.Vacancies(c), c.capacity,
                                    Percent(|c.parts|, c.capacity));
    var goal := config.dailyGoal;
    var progress := if goal > 0 then Percent(|a|, goal) else 0.0;
    r := Report(now, startLabel, endLabel, |a|, |j|, total, rate, |s.closed|, summary, shifts, reasons,
                V0141.EncodeParts(KeepLast(a, 100)), V0141.EncodeParts(KeepLast(j, 100)), goal, progress);
    ghost var e := ReportOn(s, a, j, config, startLabel, endLabel, now);
    assert r.rate == e.rate && r.progress == e.progress;
    assert r.current == e.current && r.shifts == e.shifts && r.reasons == e.reasons;
  }

  // ------------------------------------------------------------------------
  // The user store (SistemaAutenticacao)

  /** The levels `criar_usuario` offers and its refusal messages. */
  const CreateRules: Users.CreateRules :=
    Users.CreateRules([Users.Administrator, Users.Supervisor, Users.Operator],
                      "Senha muito curta (mínimo 4 caracteres)", "Nível inválido")

  class Accounts {
    var users: Users.Directory

    /** `SistemaAutenticacao()` over the users usuarios.json yielded. */
    constructor (loaded: Users.Directory, now: string, salt: nat)
      ensures users == Users.Initial(loaded, now, salt)
    {
      users := loaded;
      new;
      if users == map[] {
        users := users[Users.AdminName := Users.NewUser("admin", "Administrador do Sistema", Users.Administrator, now, salt)];
      }
    }

    /** `autenticar(usuario, senha)` at time `now`; a successful login is
        recorded in the audit trail. */
    method Authenticate(name: string, password: string, now: string, log: Audit.AuditLog)
      returns (ok: bool, data: Option<Users.UserRecord>)
      modifies this, log
      ensures (ok, data, users) == Users.Login(old(users), name, password, now)
      ensures log.entries == if ok then KeepLast(old(log.entries) + [Audit.AuditEntry(now, name, "LOGIN", "Login bem-sucedido")], Audit.Limit)
                             else old(log.entries)
    {
      if name in users {
        var record := users[name];
        if !Users.IsActive(record) {
          return false, None;
        }
        if CheckPassword(password, record.password) {
          users := users[name := record.(lastLogin := Users.Present(Some(now)))];
          log.Record(now, name, "LOGIN", "Login bem-sucedido");
          return true, Some(users[name]);
        }
      }
      return false, None;
    }

    /** `criar_usuario(usuario, senha, nome_completo, nivel)` at time `now`. */
    method CreateUser(name: string, password: string, fullName: string, level: string, now: string, salt: nat)
      returns (ok: bool, msg: string)
      modifies this
      ensures (ok, msg, users) == Users.Create(old(users), CreateRules, name, password, fullName, level, now, salt)
    {
      if name in users {
        return false, "Usuário já existe";
      }
      if |password| < 4 {
        return false, "Senha muito curta (mínimo 4 caracteres)";
      }
      if level !in [Users.Administrator, Users.Supervisor, Users.Operator] {
        return false, "Nível inválido";
      }
      users := users[name := Users.NewUser(password, fullName, level, now, salt)];
      return true, "Usuário criado com sucesso";
    }

    /** `atualizar_usuario(usuario, dados)`. */
    method UpdateUser(name: string, patch: Users.Patch, salt: nat) returns (ok: bool, msg: string)
      modifies this
      ensures (ok, msg, users) == Users.Update(old(users), name, patch, salt)
    {
      if name !in users {
        return false, "Usuário não encontrado";
      }
      var hash := None;
      if patch.password.Some? && patch.password.value != "" {
        if |patch.password.value| < 4 {
          return false, "Senha muito curta";
        }
        hash := Some(HashPassword(patch.password.value, salt));
      }
      users := users[name := Users.Apply(users[name], patch, hash)];
      return true, "Usuário atualizado";
    }

    /** `deletar_usuario(usuario)`. */
    method DeleteUser(name: string) returns (ok: bool, msg: string)
      modifies this
      ensures (ok, msg, users) == Users.DeleteV014(old(users), name)
    {
      if name == Users.AdminName {
        return false, "Não pode deletar admin";
      }
      if name in users {
        users := users - {name};
        return true, "Usuário deletado";
      }
      return false, "Usuário não encontrado";
    }
  }
}
