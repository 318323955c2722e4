/** The in-memory documents that the engine writes with json.dump and reads
    back with json.load. An object is a map from keys to values: the order in
    which json.dump writes the keys is not modelled, as nothing reads it. */
module Json {
  import opened Common

  /** A Python float: its value and the text `str()` and json.dump print for it. */
  datatype Float = Float(value: real, repr: string)

  datatype Value =
    | Null
    | Bool(b: bool)
    | Int(i: int)
    | Real(f: Float)
    | Str(s: string)
    | Arr(items: seq<Value>)
    | Obj(fields: map<string, Value>)

  /** What a data file holds when the load starts: no file at all, text that
      json.load rejects, or a parsed value. */
  datatype FileContent = Missing | Malformed | Parsed(value: Value)

  /** `d.get(key)` on a dict; `None` for an absent key or a value that is not a dict. */
  function Get(v: Value, key: string): (r: Option<Value>)
    ensures r.Some? <==> v.Obj? && key in v.fields
    ensures r.Some? ==> r.value == v.fields[key]
  {
    if v.Obj? && key in v.fields then Some(v.fields[key]) else None
  }

  /** The elements a Python `for` loop visits in `d.get(key, [])`: a list
      yields its items, a missing key, an empty string or an empty dict yields
      nothing, and anything else makes the loop body fail on its first element. */
  function ItemsOf(v: Option<Value>): (r: Option<seq<Value>>)
    ensures v.None? ==> r == Some([])
    ensures v.Some? && v.value.Arr? ==> r == Some(v.value.items)
  {
    match v
    case None => Some([])
    case Some(Arr(xs)) => Some(xs)
    case Some(Str(s)) => if s == [] then Some([]) else None
    case Some(Obj(fs)) => if fs == map[] then Some([]) else None
    case Some(_) => None
  }

  /** A string field as `d[key]` reads one that later code uses as a string. */
  function GetStr(v: Value, key: string): Option<string>
  {
    match Get(v, key)
    case Some(Str(s)) => Some(s)
    case _ => None
  }

  /** `d.get(key, default)` for a string field. */
  function GetStrOr(v: Value, key: string, default: string): Option<string>
  {
    match Get(v, key)
    case None => Some(default)
    case Some(Str(s)) => Some(s)
    case Some(_) => None
  }

  function GetInt(v: Value, key: string): Option<int>
  {
    match Get(v, key)
    case Some(Int(i)) => Some(i)
    case _ => None
  }

  function GetReal(v: Value, key: string): Option<Float>
  {
    match Get(v, key)
    case Some(Real(f)) => Some(f)
    case _ => None
  }

  function GetBool(v: Value, key: string): Option<bool>
  {
    match Get(v, key)
    case Some(Bool(b)) => Some(b)
    case _ => None
  }

  /** `d.get(key, default)` for an integer field. */
  function GetIntOr(v: Value, key: string, default: int): Option<int>
  {
    match Get(v, key)
    case None => Some(default)
    case Some(Int(i)) => Some(i)
    case Some(_) => None
  }

  /** A string-or-null field, as `d.get(key)` reads one that may be None. */
  function GetOptStr(v: Value, key: string): Option<Option<string>>
  {
    match Get(v, key)
    case None => Some(None)
    case Some(Null) => Some(None)
    case Some(Str(s)) => Some(Some(s))
    case Some(_) => None
  }

  function OptStr(s: Option<string>): Value
  {
    if s.Some? then Str(s.value) else Null
  }

  function StrList(xs: seq<string>): (v: Value)
    ensures v.Arr? && |v.items| == |xs|
    ensures forall i :: 0 <= i < |xs| ==> v.items[i] == Str(xs[i])
  {
    if xs == [] then Arr([]) else Arr([Str(xs[0])] + StrList(xs[1..]).items)
  }

  /** A list of strings read back; `None` when any element is not a string. */
  function AsStrList(vs: seq<Value>): (r: Option<seq<string>>)
    ensures r.Some? ==> |r.value| == |vs|
  {
    if vs == [] then Some([])
    else match (vs[0], AsStrList(vs[1..]))
      case (Str(s), Some(rest)) => Some([s] + rest)
      case _ => None
  }

  lemma {:induction false} StrListRoundTrip(xs: seq<string>)
    ensures AsStrList(StrList(xs).items) == Some(xs)
  {
    if xs != [] {
      var vs := StrList(xs).items;
      StrListRoundTrip(xs[1..]);
      var tail := StrList(xs[1..]).items;
      assert vs == [Str(xs[0])] + tail;
      assert vs[0] == Str(xs[0]) && vs[1..] == tail;
      assert AsStrList(tail) == Some(xs[1..]);
      assert AsStrList(vs) == Some([xs[0]] + xs[1..]);
      assert [xs[0]] + xs[1..] == xs;
    }
  }
}
