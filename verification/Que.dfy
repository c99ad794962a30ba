/** Definitions shared by both channel modes. */
module Que {

  /** The eight bytes `TEMPORAL`, read as a little-endian word. */
  const MAGIC: nat := 5494763520971851092

  /** The number whose little-endian bytes are the characters of `s`. */
  function LittleEndian(s: string): nat {
    if s == "" then 0 else s[0] as nat + 256 * LittleEndian(s[1..])
  }

  lemma LittleEndianStep(first: char, rest: string, s: string)
    requires s == [first] + rest
    ensures LittleEndian(s) == first as nat + 256 * LittleEndian(rest)
  {
    assert s[1..] == rest;
  }

  lemma MagicIsTemporal()
    ensures MAGIC == LittleEndian("TEMPORAL")
  {
    LittleEndianStep('T', "EMPORAL", "TEMPORAL");
    LittleEndianStep('E', "MPORAL", "EMPORAL");
    LittleEndianStep('M', "PORAL", "MPORAL");
    LittleEndianStep('P', "ORAL", "PORAL");
    LittleEndianStep('O', "RAL", "ORAL");
    LittleEndianStep('R', "AL", "RAL");
    LittleEndianStep('A', "L", "AL");
    LittleEndianStep('L', "", "L");
  }

  datatype QueError =
    | CorruptionDetected
    | InvalidSize
    | Uninitialized
    | IncorrectCapacity(found: nat)
    | Full

  datatype Option<+T> = None | Some(value: T)

  datatype Result<+T> = Ok(value: T) | Err(error: QueError)

  /** What a join concludes from the magic and capacity words it has loaded; `None`
      means it may go on. */
  function JoinCheck(magic: nat, capacity: nat, n: nat): (e: Option<QueError>)
    ensures e.None? <==> magic == MAGIC && capacity == n
    ensures e == Some(Uninitialized) <==> magic == 0
    ensures e == Some(CorruptionDetected) <==> magic != 0 && magic != MAGIC
    ensures e == Some(IncorrectCapacity(capacity)) <==> magic == MAGIC && capacity != n
  {
    if magic == MAGIC then
      if capacity != n then Some(IncorrectCapacity(capacity)) else None
    else if magic == 0 then Some(Uninitialized)
    else Some(CorruptionDetected)
  }
}
