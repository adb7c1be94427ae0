// vram/vram.go: how much memory a model needs, with its 20% headroom.
module Vram {

  // Go's int(x) of a float: toward zero.
  function Truncate(x: real): int {
    if x >= 0.0 then x.Floor else -((-x).Floor)
  }

  // NeededMiB on the integer that ParseMiB returned.
  function NeededMiB(vramMin: int): int {
    Truncate(vramMin as real * 1.2 + 0.5)
  }

  // The result is the nearest integer to 1.2 times the stated size, an error of at
  // most 0.4 MiB, exactly on the sizes that are not negative: truncation rounds the
  // negative ones (a size string such as "-1GiB" parses) up by at least half a MiB.
  lemma NeededIsNearest(vramMin: int)
    ensures -2 <= 5 * NeededMiB(vramMin) - 6 * vramMin <= 2 <==> vramMin >= 0
    ensures vramMin >= 0 ==> NeededMiB(vramMin) >= vramMin
    ensures vramMin < 0 ==> 3 <= 5 * NeededMiB(vramMin) - 6 * vramMin <= 7
  {
    var x := vramMin as real * 1.2 + 0.5;
    if vramMin >= 0 {
      assert x.Floor as real <= x < x.Floor as real + 1.0;
      assert -2.5 <= 5.0 * (x.Floor as real) - 6.0 * (vramMin as real) <= 2.5;
      assert 5.0 * (x.Floor as real) - 6.0 * (vramMin as real) == (5 * x.Floor - 6 * vramMin) as real;
    } else {
      var up := -((-x).Floor);
      assert up as real >= x && (up as real) < x + 1.0;
      assert 5.0 * (up as real) - 6.0 * (vramMin as real) < 7.5;
      assert 5.0 * (up as real) - 6.0 * (vramMin as real) >= 2.5;
      assert 5.0 * (up as real) - 6.0 * (vramMin as real) == (5 * up - 6 * vramMin) as real;
    }
  }
}
