/** The verdict of the run summary (`generateSummary`). */
module Summary {

  /** `m[key] >= bound`; an absent gauge (undefined in the source) never qualifies. */
  predicate AtLeast(m: map<string, int>, key: string, bound: int) {
    key in m && m[key] >= bound
  }

  /** `m[key] <= bound`; an absent gauge never qualifies. */
  predicate AtMost(m: map<string, int>, key: string, bound: int) {
    key in m && m[key] <= bound
  }

  /** The five signals the verdict may name, in the order it names them. */
  datatype Signal = StrongBody | HighLegalRisk | Overload | HighRetention | StrainedEmployer {
    function Rank(): nat {
      match this
      case StrongBody => 0
      case HighLegalRisk => 1
      case Overload => 2
      case HighRetention => 3
      case StrainedEmployer => 4
    }
  }

  /** The threshold of each signal, as `generateSummary` tests it. */
  predicate Applies(m: map<string, int>, sig: Signal) {
    match sig
    case StrongBody => AtLeast(m, "teamCohesion", 70)
    case HighLegalRisk => AtLeast(m, "legalRisk", 60)
    case Overload => AtLeast(m, "stress", 70)
    case HighRetention => AtLeast(m, "trustEmployees", 70)
    case StrainedEmployer => AtMost(m, "trustEmployer", 30)
  }

  predicate RankIncreasing(sigs: seq<Signal>) {
    forall i, j | 0 <= i < j < |sigs| :: sigs[i].Rank() < sigs[j].Rank()
  }

  /** The signals of `sigs` that apply, in the order of `sigs`. */
  function Select(m: map<string, int>, sigs: seq<Signal>): (r: seq<Signal>)
    ensures forall x :: x in r <==> x in sigs && Applies(m, x)
    decreases |sigs|
  {
    if sigs == [] then []
    else (if Applies(m, sigs[0]) then [sigs[0]] else []) + Select(m, sigs[1..])
  }

  /** Selecting keeps the order of the candidates. */
  lemma {:induction false} SelectKeepsOrder(m: map<string, int>, sigs: seq<Signal>)
    requires RankIncreasing(sigs)
    ensures RankIncreasing(Select(m, sigs))
    decreases |sigs|
  {
    if sigs != [] {
      var rest := Select(m, sigs[1..]);
      SelectKeepsOrder(m, sigs[1..]);
      forall x | x in rest ensures sigs[0].Rank() < x.Rank() {
        var k :| 0 <= k < |sigs[1..]| && sigs[1..][k] == x;
        assert sigs[k + 1] == x;
      }
      var head := if Applies(m, sigs[0]) then [sigs[0]] else [];
      assert Select(m, sigs) == head + rest;
      forall i, j | 0 <= i < j < |head + rest|
        ensures (head + rest)[i].Rank() < (head + rest)[j].Rank()
      {
        if i < |head| {
          assert (head + rest)[j] in rest;
        }
      }
    }
  }

  /** `verdict` from `generateSummary`: one `push` per threshold met, in this order. */
  function Verdict(m: map<string, int>): (r: seq<Signal>)
    ensures StrongBody in r <==> AtLeast(m, "teamCohesion", 70)
    ensures HighLegalRisk in r <==> AtLeast(m, "legalRisk", 60)
    ensures Overload in r <==> AtLeast(m, "stress", 70)
    ensures HighRetention in r <==> AtLeast(m, "trustEmployees", 70)
    ensures StrainedEmployer in r <==> AtMost(m, "trustEmployer", 30)
    ensures RankIncreasing(r)
  {
    var all := [StrongBody, HighLegalRisk, Overload, HighRetention, StrainedEmployer];
    assert RankIncreasing(all);
    SelectKeepsOrder(m, all);
    Select(m, all)
  }
}
