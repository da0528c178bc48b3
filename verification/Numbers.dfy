// Bytes as numbers.
module Numbers {

  function Value(b: bv8): (x: nat)
    ensures x < 256
  {
    b as int
  }

  function Octet(x: int): bv8
    requires 0 <= x < 256
  {
    x as bv8
  }

  lemma ValueOctet(b: bv8)
    ensures Octet(Value(b)) == b
  {}

  lemma ValueNext(b: bv8)
    requires Value(b) < 255
    ensures Value(b + 1) == Value(b) + 1
  {
    assert b != 255;
  }

  // Counting up from zero reaches every value.
  lemma {:induction false} ByteWith(x: nat) returns (b: bv8)
    requires x < 256
    ensures Value(b) == x
    decreases x
  {
    if x == 0 {
      b := 0;
    } else {
      b := ByteWith(x - 1);
      ValueNext(b);
      b := b + 1;
    }
  }

  lemma OctetValue(x: int)
    requires 0 <= x < 256
    ensures Value(Octet(x)) == x
  {
    hide Octet, Value;
    var b := ByteWith(x);
    ValueOctet(b);
  }
}
