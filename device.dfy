/**
 * The serial link to the microcontroller, modelled by what the program does to it:
 * one byte written at a time, and one line read after the light query.
 * Port setup, baud rate and the sleeps between writes are not modelled; the order is.
 */
module Device {

  datatype Event = Write(code: char) | ReadLine

  /** The events of writing `codes` one after the other. */
  function Writes(codes: seq<char>): (events: seq<Event>)
    ensures |events| == |codes|
    ensures forall i | 0 <= i < |codes| :: events[i] == Write(codes[i])
  {
    if codes == [] then [] else [Write(codes[0])] + Writes(codes[1..])
  }

  lemma WritesAppend(codes: seq<char>, c: char)
    ensures Writes(codes + [c]) == Writes(codes) + [Write(c)]
  {
    assert forall i | 0 <= i < |codes| :: (codes + [c])[i] == codes[i];
  }

  /** `encender_todo`: sala, cuarto1, cuarto2, garaje, ventilador, puerta. */
  const AllOnCodes: seq<char> := ['A', 'B', 'C', 'D', 'V', 'P']

  /** `apagar_todo`, in the same order. */
  const AllOffCodes: seq<char> := ['a', 'b', 'c', 'd', 'v', 'p']

  lemma AllOnWrites()
    ensures Writes(AllOnCodes) == [Write('A'), Write('B'), Write('C'), Write('D'), Write('V'), Write('P')]
  {
  }

  lemma AllOffWrites()
    ensures Writes(AllOffCodes) == [Write('a'), Write('b'), Write('c'), Write('d'), Write('v'), Write('p')]
  {
  }

  /** Every byte the program writes to the microcontroller. */
  const Protocol: set<char> := {'A', 'a', 'B', 'b', 'C', 'c', 'D', 'd', 'V', 'v', 'P', 'p', 'M', 'm', 'H', 'L'}

  /** The open serial port (`ser`). `log` is everything done to it so far, in order. */
  class Link {
    var log: seq<Event>

    constructor ()
      ensures log == []
    {
      log := [];
    }

    /** `ser.write(code)` */
    method Write(code: char)
      modifies this
      ensures log == old(log) + [Event.Write(code)]
    {
      log := log + [Event.Write(code)];
    }

    /** `ser.readline()`; the line itself is supplied by the caller as an input. */
    method ReadLine()
      modifies this
      ensures log == old(log) + [Event.ReadLine]
    {
      log := log + [Event.ReadLine];
    }
  }

  /** The loop of `encender_todo` and `apagar_todo`: each byte written in turn. */
  method WriteAll(link: Link, codes: seq<char>)
    modifies link
    ensures link.log == old(link.log) + Writes(codes)
  {
    for i := 0 to |codes|
      invariant link.log == old(link.log) + Writes(codes[..i])
    {
      link.Write(codes[i]);
      WritesAppend(codes[..i], codes[i]);
      assert codes[..i + 1] == codes[..i] + [codes[i]];
    }
    assert codes[..|codes|] == codes;
  }

  /** `encender_todo` */
  method TurnAllOn(link: Link)
    modifies link
    ensures link.log == old(link.log) + Writes(AllOnCodes)
  {
    WriteAll(link, AllOnCodes);
  }

  /** `apagar_todo` */
  method TurnAllOff(link: Link)
    modifies link
    ensures link.log == old(link.log) + Writes(AllOffCodes)
  {
    WriteAll(link, AllOffCodes);
  }
}
