/**
 * `read_criteria` (main.py:164-212): the district's closure criteria come
 * from the first criteria file, in order of preference, whose stripped
 * content is not empty, or else from a built-in default text.
 */
module Criteria {
  import opened Text

  /** The places looked at, preferred first, then the legacy location. */
  const Locations: seq<string> := ["config/district/closure_criteria.txt", "misc data/snowday_criteria.txt"]

  const DefaultCriteria: string :=
    "Default School Closure Criteria:\n"
    + "- Consider student and staff safety as the primary factor\n"
    + "- Monitor weather conditions including temperature, precipitation, and wind\n"
    + "- Evaluate road conditions and transportation safety\n"
    + "- Account for building and facility operations\n"
    + "Please replace this with your district's specific criteria in config/district/closure_criteria.txt"

  /**
   * `files` maps a path to the text read from it; a path that is absent stands
   * for every failure the loop catches (missing file, no permission, bad
   * encoding, any other error).
   */
  predicate Usable(files: map<string, string>, path: string) {
    path in files && Strip(files[path]) != []
  }

  /**
   * `criteria` is what the search settles on: the stripped content of the
   * first usable location, or the default when none is usable.
   */
  predicate Chosen(files: map<string, string>, criteria: string) {
    && ((exists i :: 0 <= i < |Locations| && Usable(files, Locations[i])) ==>
         exists i :: 0 <= i < |Locations| && Usable(files, Locations[i])
           && (forall j :: 0 <= j < i ==> !Usable(files, Locations[j]))
           && criteria == Strip(files[Locations[i]]))
    && ((forall i :: 0 <= i < |Locations| ==> !Usable(files, Locations[i])) ==> criteria == DefaultCriteria)
  }

  method ReadCriteria(files: map<string, string>) returns (criteria: string)
    ensures Chosen(files, criteria)
  {
    var n := 0;
    while n < |Locations|
      invariant 0 <= n <= |Locations|
      invariant forall j :: 0 <= j < n ==> !Usable(files, Locations[j])
    {
      var path := Locations[n];
      if path !in files {
        n := n + 1;
        continue;
      }
      var content := Strip(files[path]);
      if content == [] {
        n := n + 1;
        continue;
      }
      return content;
    }
    return DefaultCriteria;
  }
}
