/** Choosing the challenge of a track that the benchmark runs. */
module Challenges {
  import opened Types

  /** Picks the first challenge of the track named `selected`; naming a
      challenge the track does not have is a setup error that names it. */
  method SelectChallenge(challenges: seq<Challenge>, selected: string) returns (r: Result<Challenge>)
    ensures r.Err? <==> forall c :: c in challenges ==> c.name != selected
    ensures r.Err? ==> r.error == SystemSetup(selected)
    ensures r.Ok? ==> exists i :: (0 <= i < |challenges| && r.value == challenges[i]
      && r.value.name == selected
      && forall j :: 0 <= j < i ==> challenges[j].name != selected)
  {
    var i := 0;
    while i < |challenges|
      invariant 0 <= i <= |challenges|
      invariant forall j :: 0 <= j < i ==> challenges[j].name != selected
    {
      if challenges[i].name == selected {
        return Ok(challenges[i]);
      }
      i := i + 1;
    }
    return Err(SystemSetup(selected));
  }
}
