/** The ids a preview gives to the blocks of one file: the file, the position of the block and the time in milliseconds,
joined with hyphens. */
module PreviewIds {
  import opened Modifications
  import opened DiffContext

  function Digit(d: nat): char
    requires d < 10
  {
    "0123456789"[d]
  }

  function Decimal(n: nat): (r: string)
    ensures r != []
  {
    if n < 10 then [Digit(n)] else Decimal(n / 10) + [Digit(n % 10)]
  }

  function BlockId(document: string, position: nat, time: nat): string {
    "mod-" + document + "-" + Decimal(position) + "-" + Decimal(time)
  }

  lemma {:induction false} DecimalIsInjective(m: nat, n: nat)
    requires Decimal(m) == Decimal(n)
    ensures m == n
    decreases m
  {
    var a, b := Decimal(m), Decimal(n);
    assert a[|a| - 1] == Digit(m % 10) && b[|b| - 1] == Digit(n % 10);
    if m >= 10 && n >= 10 {
      assert a[..|a| - 1] == Decimal(m / 10) && b[..|b| - 1] == Decimal(n / 10);
      DecimalIsInjective(m / 10, n / 10);
    }
  }

  lemma {:induction false} NoHyphen(n: nat)
    ensures '-' !in Decimal(n)
  {
    if n >= 10 {
      NoHyphen(n / 10);
    }
  }

  /** What stands before the first hyphen is determined. */
  lemma BeforeHyphen(a: string, x: string, b: string, y: string)
    requires '-' !in a && '-' !in b && a + "-" + x == b + "-" + y
    ensures a == b
  {
    var s := a + "-" + x;
    assert s[|a|] == '-' && s[..|a|] == a;
    assert s == b + "-" + y && s[|b|] == '-' && s[..|b|] == b;
  }

  /** Blocks at different positions have different ids, whenever they were made. */
  lemma PositionsTellApart(document: string, i: nat, j: nat, t: nat, u: nat)
    ensures BlockId(document, i, t) == BlockId(document, j, u) ==> i == j
  {
    if BlockId(document, i, t) == BlockId(document, j, u) {
      var head := "mod-" + document + "-";
      var a, b := Decimal(i) + "-" + Decimal(t), Decimal(j) + "-" + Decimal(u);
      assert BlockId(document, i, t) == head + a && BlockId(document, j, u) == head + b;
      assert (head + a)[|head|..] == a && (head + b)[|head|..] == b;
      NoHyphen(i);
      NoHyphen(j);
      BeforeHyphen(Decimal(i), Decimal(t), Decimal(j), Decimal(u));
      DecimalIsInjective(i, j);
    }
  }

  /** So in the blocks of one preview, whatever verdicts they have by now, a search by id reaches every pending one. */
  lemma PreviewedIsReachable(document: string, mods: seq<Mod>, positions: seq<nat>, times: seq<nat>)
    requires |mods| == |positions| == |times|
    requires forall i, j :: 0 <= j < i < |mods| ==> positions[j] < positions[i]
    requires forall i :: 0 <= i < |mods| ==> mods[i].id == BlockId(document, positions[i], times[i])
    ensures PendingReachable(mods)
  {
    forall i, j | 0 <= j < i < |mods| && mods[i].status.Pending? ensures mods[j].id != mods[i].id {
      PositionsTellApart(document, positions[i], positions[j], times[i], times[j]);
    }
  }
}
