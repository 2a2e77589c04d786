/** How a Trust-Score relaxes enforcement.  A score that is no finite number counts as 0. */
module Trust {

  datatype Score = Finite(value: real) | NotFinite

  function ClampScore(s: Score): real {
    if s.NotFinite? || s.value < 0.0 then 0.0
    else if s.value > 100.0 then 100.0
    else s.value
  }

  function Multiplier(s: Score): nat {
    var v := ClampScore(s);
    if v <= 20.0 then 1 else if v <= 50.0 then 2 else if v <= 80.0 then 5 else 10
  }

  predicate RequiresFraudCorroboration(s: Score) { ClampScore(s) >= 81.0 }

  predicate Tier4Immune(s: Score) { ClampScore(s) >= 51.0 }

  /** The documented bands, for whole scores; what is no number counts as 0. */
  lemma {:induction false} BandsAsDocumented(score: nat)
    requires score <= 100
    ensures var s := Finite(score as real);
            && Multiplier(s) == (if score <= 20 then 1 else if score <= 50 then 2 else if score <= 80 then 5 else 10)
            && (RequiresFraudCorroboration(s) <==> score >= 81) && (Tier4Immune(s) <==> score >= 51)
    ensures Multiplier(NotFinite) == 1 && !RequiresFraudCorroboration(NotFinite) && !Tier4Immune(NotFinite)
  {}

  /** The documented bands: co-evidence is required at 10x, and tier 4 is out of reach from 5x on. */
  predicate BandsAlign(s: Score) {
    && (RequiresFraudCorroboration(s) <==> Multiplier(s) == 10)
    && (Tier4Immune(s) <==> Multiplier(s) >= 5)
  }

  /** The three gates agree with the documented bands exactly outside the two gaps between integer scores. */
  lemma {:induction false} BandsAlignExactly(s: Score)
    ensures BandsAlign(s) <==> !(50.0 < ClampScore(s) < 51.0) && !(80.0 < ClampScore(s) < 81.0)
  {}
}
