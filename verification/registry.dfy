/** The static registry of research groups and the sensors each owns (db_stuffs.py GROUPS). */
module Registry {

  /** Group id to the set of sensor ids registered for that group. */
  const Groups: map<string, set<string>> :=
    map["CSAIL" := {"csail-0", "csail-1"}, "RLE" := {"adam"}, "SKRT" := {}]

  /** No registered group or sensor id contains a line break, so each report line built
      from them stays on one line. */
  lemma RegistryIdsArePlain()
    ensures forall g :: g in Groups ==> '\n' !in g
    ensures forall g, s :: g in Groups && s in Groups[g] ==> '\n' !in s
  {
    assert Groups.Keys == {"CSAIL", "RLE", "SKRT"};
  }
}
