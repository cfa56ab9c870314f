/** The gate-state vocabulary of data/model/gate.kt: nine states, each with
    the string the backend sends for it, and the lookup from a string back to
    the state. The queue engine compares the raw strings of a gate batch with
    these values. */
module GateStates {
  import opened Wrappers

  datatype GateState =
    | Closed
    | GettingData
    | WaitingForApprovement
    | CardRejected
    | AccessGranted
    | AccessDenied
    | StaffEntered
    | PrintingTickets
    | ReadyForUse

  /** The wire string of a state (the enum's `value`). */
  function Value(g: GateState): string {
    match g
    case Closed => "Closed"
    case GettingData => "GettingData"
    case WaitingForApprovement => "WaitingForApprovement"
    case CardRejected => "CardRejected"
    case AccessGranted => "AccessGranted"
    case AccessDenied => "AccessDenied"
    case StaffEntered => "StaffEntered"
    case PrintingTickets => "PrintingTickets"
    case ReadyForUse => "ReadyForUse"
  }

  /** The enum's `entries`, in declaration order. */
  const Entries: seq<GateState> :=
    [Closed, GettingData, WaitingForApprovement, CardRejected, AccessGranted,
     AccessDenied, StaffEntered, PrintingTickets, ReadyForUse]

  /** The first entry of `es` whose value is `s` (Kotlin's `find`). */
  function Find(es: seq<GateState>, s: string): (r: Option<GateState>)
    ensures r.Some? ==> r.value in es && Value(r.value) == s
    ensures r.None? <==> forall i :: 0 <= i < |es| ==> Value(es[i]) != s
    ensures r.Some? ==> exists k :: 0 <= k < |es| && es[k] == r.value &&
                          forall j :: 0 <= j < k ==> Value(es[j]) != s
  {
    if es == [] then None
    else if Value(es[0]) == s then Some(es[0])
    else
      var r := Find(es[1..], s);
      assert r.Some? ==> exists k :: 0 <= k < |es[1..]| && es[1..][k] == r.value &&
                          forall j :: 0 <= j < k ==> Value(es[1..][j]) != s;
      if r.Some? then
        var k :| 0 <= k < |es[1..]| && es[1..][k] == r.value &&
                 forall j :: 0 <= j < k ==> Value(es[1..][j]) != s;
        assert es[k + 1] == r.value;
        assert forall j :: 0 <= j < k + 1 ==> Value(es[j]) != s by {
          forall j | 0 <= j < k + 1 ensures Value(es[j]) != s {
            if j > 0 { assert es[j] == es[1..][j - 1]; }
          }
        }
        r
      else
        assert forall i :: 0 <= i < |es| ==> Value(es[i]) != s by {
          forall i | 0 <= i < |es| ensures Value(es[i]) != s {
            if i > 0 { assert es[i] == es[1..][i - 1]; }
          }
        }
        r
  }

  /** `GateState.from(value)`: the state whose value is `s`, or none. */
  function From(s: string): Option<GateState> {
    Find(Entries, s)
  }

  /** Every constant is listed in `entries`. */
  lemma EntryListed(g: GateState)
    ensures exists k :: 0 <= k < |Entries| && Entries[k] == g
  {
    match g
    case Closed => assert Entries[0] == g;
    case GettingData => assert Entries[1] == g;
    case WaitingForApprovement => assert Entries[2] == g;
    case CardRejected => assert Entries[3] == g;
    case AccessGranted => assert Entries[4] == g;
    case AccessDenied => assert Entries[5] == g;
    case StaffEntered => assert Entries[6] == g;
    case PrintingTickets => assert Entries[7] == g;
    case ReadyForUse => assert Entries[8] == g;
  }

  /** The nine wire strings are pairwise distinct. */
  lemma ValuesDistinct(g: GateState, h: GateState)
    ensures Value(g) == Value(h) ==> g == h
  {
  }

  /** Round trip: looking up a state's value yields that state. */
  lemma FromValue(g: GateState)
    ensures From(Value(g)) == Some(g)
  {
    EntryListed(g);
    var r := From(Value(g));
    assert r.Some?;
    ValuesDistinct(r.value, g);
  }

  /** A string that is none of the nine values has no state. */
  lemma FromUnknown(s: string)
    requires forall g: GateState :: Value(g) != s
    ensures From(s) == None
  {
  }

  /** A state found for `s` has `s` as its value. */
  lemma FromSound(s: string)
    ensures From(s).Some? ==> Value(From(s).value) == s
  {
  }

  /** `from(s)` is non-null exactly when `s` is one of the nine values. */
  lemma FromDefinedIff(s: string)
    ensures From(s).Some? <==> exists g: GateState :: Value(g) == s
  {
    if exists g: GateState :: Value(g) == s {
      var g: GateState :| Value(g) == s;
      FromValue(g);
    }
  }
}
