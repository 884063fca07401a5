/** Python's `max` with a key, over a sequence whose keys may raise. */
module Selection {
  import opened Results

  /** The index `max` returns: the first element whose key is largest
      (later elements replace the current best only when strictly larger). */
  function FirstMax(vals: seq<real>): (k: nat)
    requires |vals| > 0
    ensures k < |vals|
    ensures forall j :: 0 <= j < |vals| ==> vals[j] <= vals[k]
    ensures forall j :: 0 <= j < k ==> vals[j] < vals[k]
  {
    if |vals| == 1 then 0
    else
      var k := FirstMax(vals[..|vals| - 1]);
      if vals[|vals| - 1] > vals[k] then |vals| - 1 else k
  }

  /** Evaluating the keys in order: the first error raised, or every value. */
  function Collect(rs: seq<Result<real>>): (r: Result<seq<real>>)
    ensures r.Ok? <==> forall i :: 0 <= i < |rs| ==> rs[i].Ok?
    ensures r.Ok? ==> |r.value| == |rs| && forall i :: 0 <= i < |rs| ==> r.value[i] == rs[i].value
    ensures r.Err? ==> exists i :: 0 <= i < |rs| && rs[i] == Err(r.error) && forall j :: 0 <= j < i ==> rs[j].Ok?
  {
    if rs == [] then Ok([])
    else if rs[0].Err? then Err(rs[0].error)
    else
      match Collect(rs[1..])
      case Err(e) =>
        assert exists i :: 0 <= i < |rs| - 1 && rs[1..][i] == Err(e) && forall j :: 0 <= j < i ==> rs[1..][j].Ok?;
        var i :| 0 <= i < |rs| - 1 && rs[1..][i] == Err(e) && forall j :: 0 <= j < i ==> rs[1..][j].Ok?;
        assert rs[i + 1] == Err(e) && forall j :: 0 <= j < i + 1 ==> rs[j].Ok?;
        Err(e)
      case Ok(vs) => Ok([rs[0].value] + vs)
  }

  /** `max(xs, key=k)`: the index of the element chosen, or the first error
      a key raises. */
  function MaxIndex(rs: seq<Result<real>>): (r: Result<nat>)
    requires |rs| > 0
    ensures r.Ok? <==> forall i :: 0 <= i < |rs| ==> rs[i].Ok?
    ensures r.Ok? ==> r.value < |rs| && rs[r.value].Ok?
    ensures r.Ok? ==> forall i :: 0 <= i < |rs| ==> rs[i].value <= rs[r.value].value
    ensures r.Ok? ==> forall i :: 0 <= i < r.value ==> rs[i].value < rs[r.value].value
    ensures r.Err? ==> exists i :: 0 <= i < |rs| && rs[i] == Err(r.error) && forall j :: 0 <= j < i ==> rs[j].Ok?
  {
    match Collect(rs)
    case Err(e) => Err(e)
    case Ok(vals) => Ok(FirstMax(vals))
  }

  /** The chosen key is at most 0 exactly when every key evaluates and is at most 0. */
  lemma MaxIndexNonPositive(rs: seq<Result<real>>)
    requires |rs| > 0
    ensures (MaxIndex(rs).Ok? && rs[MaxIndex(rs).value].value <= 0.0) <==>
            forall i :: 0 <= i < |rs| ==> rs[i].Ok? && rs[i].value <= 0.0
  {
  }
}
