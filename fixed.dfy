/** The quality criteria v0.10 (tests/v010.py) and v0.12 (tests/v012.py)
    hard-code in `validar`: a weight of 95 to 105 g, the colours azul and
    verde, a length of 10 to 20 cm, and boxes of ten parts. Both versions
    write the same reason texts. */
module Fixed {
  import opened Common
  import opened Text
  import opened Json
  import opened Stats

  /** `Caixa.CAPACIDADE_MAXIMA`. */
  const Capacity: nat := 10

  predicate WeightOk(weight: Float)
  {
    95.0 <= weight.value <= 105.0
  }

  predicate ColorOk(color: string)
  {
    color in ["azul", "verde"]
  }

  predicate LengthOk(length: Float)
  {
    10.0 <= length.value <= 20.0
  }

  predicate Passes(weight: Float, color: string, length: Float, k: Check)
  {
    match k
    case Weight => WeightOk(weight)
    case Color => ColorOk(color)
    case Length => LengthOk(length)
  }

  /** The checks the measurements fail, in the order weight, colour, length. */
  function Failed(weight: Float, color: string, length: Float): (ks: seq<Check>)
    ensures forall k :: k in ks <==> !Passes(weight, color, length, k)
    ensures forall i, j :: 0 <= i < j < |ks| ==> Position(ks[i]) < Position(ks[j])
  {
    (if WeightOk(weight) then [] else [Weight])
    + (if ColorOk(color) then [] else [Color])
    + (if LengthOk(length) then [] else [Length])
  }

  function Reason(weight: Float, color: string, length: Float, k: Check): string
  {
    match k
    case Weight => "Peso" + (" fora do padrão: " + weight.repr + "g (esperado: 95-105g)")
    case Color => "Cor" + (" não aprovada: " + color + " (esperado: azul ou verde)")
    case Length => "Comprimento" + (" fora do padrão: " + length.repr + "cm (esperado: 10-20cm)")
  }

  /** The reasons `validar` collects: one per failed check, in check order,
      and none exactly when the part passes. */
  function Reasons(weight: Float, color: string, length: Float): (r: seq<string>)
    ensures r == [] <==> WeightOk(weight) && ColorOk(color) && LengthOk(length)
    ensures |r| == |Failed(weight, color, length)|
    ensures forall i :: 0 <= i < |r| ==> r[i] == Reason(weight, color, length, Failed(weight, color, length)[i])
  {
    (if WeightOk(weight) then [] else [Reason(weight, color, length, Weight)])
    + (if ColorOk(color) then [] else [Reason(weight, color, length, Color)])
    + (if LengthOk(length) then [] else [Reason(weight, color, length, Length)])
  }

  /** Every reason names its check, so that the v0.12 report screen files it
      under that same check. */
  lemma ReasonsClassified(weight: Float, color: string, length: Float, k: Check)
    requires Plain(weight.repr) && Plain(length.repr) && IsLower(color)
    ensures Classify(Reason(weight, color, length, k)) == Some(k)
  {
    match k
    case Weight =>
      WeightReasonClassified(" fora do padrão: " + weight.repr + "g (esperado: 95-105g)");
    case Color =>
      LowerLacks(color, 'P');
      ColorReasonClassified(" não aprovada: " + color + " (esperado: azul ou verde)");
    case Length =>
      LengthReasonClassified(" fora do padrão: " + length.repr + "cm (esperado: 10-20cm)");
  }
}
