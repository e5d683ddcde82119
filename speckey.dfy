/** The key that ties a specification row to a good:
    "good_" + goods position + "-num_" + number, both written with
    strconv.Itoa. */
module SpecKeys {
  import opened GoText

  function SpecKey(good: int, num: int): string {
    "good_" + Itoa(good) + "-num_" + Itoa(num)
  }

  /** A non-negative number is written with digits only. */
  lemma ItoaDigits(n: int)
    requires n >= 0
    ensures '-' !in Itoa(n)
  {
    var s := Itoa(n);
    assert forall k :: 0 <= k < |s| ==> '0' <= s[k] <= '9';
  }

  /** Keys built from non-negative positions tell their positions apart:
      equal keys have equal goods positions and equal numbers. */
  lemma SpecKeyInjective(g1: int, n1: int, g2: int, n2: int)
    requires g1 >= 0 && n1 >= 0 && g2 >= 0 && n2 >= 0
    requires SpecKey(g1, n1) == SpecKey(g2, n2)
    ensures g1 == g2 && n1 == n2
  {
    var a1, a2 := Itoa(g1), Itoa(g2);
    var b1, b2 := Itoa(n1), Itoa(n2);
    var p1, p2 := "good_" + a1, "good_" + a2;
    ItoaDigits(g1);
    ItoaDigits(g2);
    assert '-' !in "good_";
    assert '-' !in p1 by { assert forall k :: 0 <= k < |p1| ==> p1[k] == (if k < 5 then "good_"[k] else a1[k - 5]); }
    assert '-' !in p2 by { assert forall k :: 0 <= k < |p2| ==> p2[k] == (if k < 5 then "good_"[k] else a2[k - 5]); }
    var s := SpecKey(g1, n1);
    assert s == p1 + ['-'] + ("num_" + b1);
    assert s == p2 + ['-'] + ("num_" + b2);
    IndexOfSeparated(p1, '-', "num_" + b1);
    IndexOfSeparated(p2, '-', "num_" + b2);
    assert |p1| == |p2|;
    assert p1 == s[..|p1|] == p2;
    assert a1 == p1[5..] && a2 == p2[5..];
    assert "num_" + b1 == s[|p1| + 1..] == "num_" + b2;
    assert b1 == ("num_" + b1)[4..] && b2 == ("num_" + b2)[4..];
    ItoaInjective(g1, g2);
    ItoaInjective(n1, n2);
  }
}
