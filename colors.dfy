/** The colour rules applied to the numeric tokens of the report. */
module Colors {

  /** Which of the three colour functions a token is rendered with. */
  datatype Color = Red | Blue | Plain

  /** The temperature rule: red above 80F, blue below 32F, uncoloured in between
      (both 32 and 80 themselves are uncoloured). */
  function TempColor(tempF: real): (c: Color)
    ensures c == Red <==> tempF > 80.0
    ensures c == Blue <==> tempF < 32.0
    ensures c == Plain <==> 32.0 <= tempF <= 80.0
  {
    if tempF > 80.0 then Red
    else if tempF < 32.0 then Blue
    else Plain
  }

  /** The rain rule: red above 40 percent, uncoloured otherwise; never blue. */
  function RainColor(chance: real): (c: Color)
    ensures c == Red <==> chance > 40.0
    ensures c == Plain <==> chance <= 40.0
  {
    if chance > 40.0 then Red else Plain
  }

  /** Orders the temperature colours from cold to hot. */
  function Warmth(c: Color): nat
  {
    match c
    case Blue => 0
    case Plain => 1
    case Red => 2
  }

  /** A warmer temperature never gets a colder colour. */
  lemma TempColorMonotone(t1: real, t2: real)
    requires t1 <= t2
    ensures Warmth(TempColor(t1)) <= Warmth(TempColor(t2))
  {
  }

  /** A higher chance of rain is never less alarming. */
  lemma RainColorMonotone(r1: real, r2: real)
    requires r1 <= r2
    ensures RainColor(r1) == Red ==> RainColor(r2) == Red
  {
  }
}
