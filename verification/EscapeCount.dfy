/** How many octets of a message need escaping (ks/hdlc.c), and the way of the check register
    through a message whose octets are known: what it takes to say how long a frame is. */
module EscapeCount {
  import opened Crc
  import opened Hdlc

  // ------------------------------------------------------------------- escapes

  lemma {:induction false} EscapesConcat(s: seq<bv8>, t: seq<bv8>)
    ensures Escapes(s + t) == Escapes(s) + Escapes(t)
    decreases t
  {
    if t == [] {
      assert s + t == s;
    } else {
      var u := s + t;
      assert u[..|u| - 1] == s + t[..|t| - 1] && u[|u| - 1] == t[|t| - 1];
      EscapesConcat(s, t[..|t| - 1]);
    }
  }

  lemma {:induction false} EscapesAtMost(s: seq<bv8>)
    ensures Escapes(s) <= |s|
  {
    StuffAllShape(s);
  }

  lemma EscapesOfOne(b: bv8)
    ensures Escapes([b]) == if Special(b) then 1 else 0
  {
    assert [b][..0] == [];
  }

  lemma NoEscapes()
    ensures Escapes([]) == 0
  {
  }

  lemma {:induction false} CountEscapes(s: seq<bv8>, counts: seq<nat>)
    requires |counts| == |s| + 1 && counts[0] == 0
    requires forall i | 0 <= i < |s| :: counts[i + 1] == counts[i] + if Special(s[i]) then 1 else 0
    ensures Escapes(s) == counts[|s|]
    decreases s
  {
    if s != [] {
      CountEscapes(s[..|s| - 1], counts[..|s|]);
    }
  }

  // -------------------------------------------------------- the check register

  lemma {:induction false} FoldConcat(crc: bv16, s: seq<bv8>, t: seq<bv8>)
    ensures TableFold(crc, s + t) == TableFold(TableFold(crc, s), t)
    decreases s
  {
    hide TableStep;
    if s == [] {
      assert s + t == t;
    } else {
      assert (s + t)[0] == s[0] && (s + t)[1..] == s[1..] + t;
      FoldConcat(TableStep(crc, s[0]), s[1..], t);
    }
  }

  lemma {:induction false} FoldOne(crc: bv16, b: bv8, rest: seq<bv8>)
    ensures TableFold(crc, [b] + rest) == TableFold(TableStep(crc, b), rest)
  {
    hide TableStep;
    assert ([b] + rest)[1..] == rest;
  }

  lemma FoldNothing(crc: bv16)
    ensures TableFold(crc, []) == crc
  {
  }

  /** A path of registers through the octets of a message. */
  predicate Path(registers: seq<bv16>, octets: seq<bv8>) {
    && |registers| == |octets| + 1
    && forall i | 0 <= i < |octets| :: TableStep(registers[i], octets[i]) == registers[i + 1]
  }

  lemma {:induction false} PathFolds(registers: seq<bv16>, octets: seq<bv8>)
    requires Path(registers, octets)
    ensures TableFold(registers[0], octets) == registers[|octets|]
    decreases octets
  {
    hide TableStep;
    if octets != [] {
      assert TableStep(registers[0], octets[0]) == registers[1];
      PathFolds(registers[1..], octets[1..]);
    }
  }
}
