/** `Peca.obter_turno_atual`: the production shift of the hour a part is
    inspected at. The hour is datetime.now().hour, passed in by the caller. */
module Shifts {

  const Morning: string := "Manhã"
  const Afternoon: string := "Tarde"
  const Night: string := "Noite"

  /** The three shifts split every hour of the clock between them. */
  function ShiftOf(hour: int): (s: string)
    ensures s == Morning <==> 6 <= hour < 14
    ensures s == Afternoon <==> 14 <= hour < 22
    ensures s == Night <==> hour < 6 || 22 <= hour
    ensures s == Morning || s == Afternoon || s == Night
  {
    if 6 <= hour < 14 then Morning
    else if 14 <= hour < 22 then Afternoon
    else Night
  }
}
