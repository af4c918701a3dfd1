/** The tease text the mouseenter handler of the No button shows
    (assets/js/app.js): the five lines in order for the first five hovers,
    then a random line on every third hover, otherwise no change. */
module Tease {
  import opened RandomDraws

  /** The script's own five tease lines, in order. */
  const TeaseLines: seq<string> := [
    "Hmm? You sure? \U{1F60F}",
    "Nice try \U{1F60C}",
    "Nope \U{1F602}",
    "You can't pick that one \U{1F624}",
    "Be honest \U{1F496}"
  ]

  /** Hovers shown in fixed order before the random phase starts. */
  const Onboarding: nat := 5

  /** In the random phase a new line is drawn on every hover whose count is
      a multiple of this. */
  const RedrawEvery: nat := 3

  /** The text after hover number `count`, given the text before it and the
      Math.random() result the handler would use for a redraw. */
  function NextTease(count: nat, current: string, r: real): (t: string)
    requires 1 <= count && Unit(r)
    ensures count <= Onboarding ==> t == TeaseLines[count - 1]
    ensures count > Onboarding && count % RedrawEvery == 0 ==> t in TeaseLines
    ensures count > Onboarding && count % RedrawEvery != 0 ==> t == current
  {
    if count <= Onboarding then TeaseLines[count - 1]
    else if count % RedrawEvery == 0 then TeaseLines[Pick(r, 0, |TeaseLines| - 1)]
    else current
  }

  /** A possible Math.random() result for every hover. */
  predicate ValidRolls(rs: seq<real>) {
    forall i :: 0 <= i < |rs| ==> Unit(rs[i])
  }

  /** The text after `n` hovers since a reset, which clears it; rs[i] is the
      random number available at hover i + 1. */
  function TeaseAfter(n: nat, rs: seq<real>): (t: string)
    requires n <= |rs| && ValidRolls(rs)
    ensures t == "" <==> n == 0
  {
    if n == 0 then "" else NextTease(n, TeaseAfter(n - 1, rs), rs[n - 1])
  }

  /** The first five hovers after a reset show the five lines in order,
      whatever the random numbers. */
  lemma TeaseAfterOnboarding(n: nat, rs: seq<real>, rs': seq<real>)
    requires 1 <= n <= Onboarding
    requires n <= |rs| && ValidRolls(rs) && n <= |rs'| && ValidRolls(rs')
    ensures TeaseAfter(n, rs) == TeaseLines[n - 1] == TeaseAfter(n, rs')
  {
  }

  /** After the first hover the text is always one of the tease lines. */
  lemma {:induction false} TeaseAfterIsLine(n: nat, rs: seq<real>)
    requires 1 <= n <= |rs| && ValidRolls(rs)
    ensures TeaseAfter(n, rs) in TeaseLines
  {
    if n > Onboarding && n % RedrawEvery != 0 {
      TeaseAfterIsLine(n - 1, rs);
    }
  }

  /** Past the onboarding, the text shown is the line drawn at the most
      recent hover whose count is a multiple of three. */
  lemma {:induction false} TeaseAfterLatestRedraw(n: nat, rs: seq<real>)
    requires Onboarding < n <= |rs| && ValidRolls(rs)
    ensures Onboarding < n - n % RedrawEvery
    ensures TeaseAfter(n, rs) == TeaseLines[Pick(rs[n - n % RedrawEvery - 1], 0, |TeaseLines| - 1)]
  {
    if n % RedrawEvery != 0 {
      assert (n - 1) - (n - 1) % RedrawEvery == n - n % RedrawEvery;
      TeaseAfterLatestRedraw(n - 1, rs);
    }
  }
}
