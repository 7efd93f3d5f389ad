/** db.py: the simpler store, an append-only list of movie documents in
    which a name may occur more than once. */
module DocStore {
  import opened Wrappers
  import opened KeyedDocs

  type Movies = seq<Doc<string, string>>   // name -> file_id, duplicates allowed

  /** `load_movies`: a dict comprehension, so the last document of each name wins. */
  function LoadMovies(movies: Movies): (m: map<string, string>)
    ensures m.Keys == Keys(movies)
    ensures forall i :: 0 <= i < |movies| && (forall j :: i < j < |movies| ==> movies[j].key != movies[i].key) ==>
      movies[i].key in m && m[movies[i].key] == movies[i].value
  {
    forall i | 0 <= i < |movies| && (forall j :: i < j < |movies| ==> movies[j].key != movies[i].key)
      ensures movies[i].key in Load(movies) && Load(movies)[movies[i].key] == movies[i].value
    {
      LoadLast(movies, i);
    }
    Load(movies)
  }

  /** `save_movie`: `insert_one`, even when the name is already stored. */
  function SaveMovie(movies: Movies, name: string, fileId: string): (r: Movies)
    ensures |r| == |movies| + 1 && r[..|movies|] == movies
    ensures Occurrences(r, name) == Occurrences(movies, name) + 1
    ensures LoadMovies(r) == LoadMovies(movies)[name := fileId]
  {
    Append(movies, name, fileId)
  }

  /** `delete_movie`: `delete_one` removes at most one document. */
  function DeleteMovie(movies: Movies, name: string): (r: Movies)
    ensures |r| == if name in Keys(movies) then |movies| - 1 else |movies|
    ensures Occurrences(r, name) == if name in Keys(movies) then Occurrences(movies, name) - 1 else 0
    ensures name in Keys(movies) ==>
      var i := FirstIndex(movies, name).value; r == movies[..i] + movies[i + 1..]
    ensures name !in Keys(movies) ==> r == movies
  {
    DeleteOne(movies, name)
  }

  /** After a delete a name is still listed exactly when it had been saved
      more than once. */
  lemma DeleteLeavesDuplicate(movies: Movies, name: string)
    ensures name in LoadMovies(DeleteMovie(movies, name)) <==> Occurrences(movies, name) >= 2
  {
  }

  /** `rename_movie`: `update_one` sets the name of the first matching
      document; the result is pymongo's `modified_count > 0`, which is false
      when nothing matched and also when the new name equals the old. */
  function RenameMovie(movies: Movies, from: string, to: string): (r: (bool, Movies))
    ensures |r.1| == |movies|
    ensures forall i :: 0 <= i < |movies| ==> r.1[i].value == movies[i].value
    ensures r.0 <==> from in Keys(movies) && from != to
    ensures !r.0 ==> r.1 == movies
    ensures r.0 ==> var i := FirstIndex(movies, from).value; r.1 == movies[i := Doc(to, movies[i].value)]
  {
    var updated := RenameFirst(movies, from, to);
    (from in Keys(movies) && from != to, updated)
  }

  /** What `load_movies` sees after a rename. The new name maps to the
      renamed file unless a later document already carries the new name, in
      which case that later document still wins and the renamed file is
      unreachable by name. The old name stays listed only when a later
      document carries it too. */
  lemma RenameLoad(movies: Movies, from: string, to: string)
    requires from in Keys(movies) && from != to
    ensures var i := FirstIndex(movies, from).value;
      var m := LoadMovies(RenameMovie(movies, from, to).1);
      && to in m
      && (to in Keys(movies[i + 1..]) ==> to in LoadMovies(movies) && m[to] == LoadMovies(movies)[to])
      && (to !in Keys(movies[i + 1..]) ==> m[to] == movies[i].value)
      && (from in m <==> from in Keys(movies[i + 1..]))
  {
    var i := FirstIndex(movies, from).value;
    var a, c := movies[..i], movies[i + 1..];
    var renamed := Doc(to, movies[i].value);
    assert movies == a + [movies[i]] + c;
    assert RenameMovie(movies, from, to).1 == a + [renamed] + c;
    LoadAppend(a + [movies[i]], c);
    LoadAppend(a, [movies[i]]);
    LoadAppend(a + [renamed], c);
    LoadAppend(a, [renamed]);
    LoadSingle(movies[i]);
    LoadSingle(renamed);
    KeysAbsent(a, from);
  }

  /** The smallest case: renaming "A" onto a name saved after it reports
      success, yet "B" still opens the older file and "A" is gone. */
  lemma RenameOntoLaterName()
    ensures var movies := [Doc("A", "1"), Doc("B", "2")];
      var r := RenameMovie(movies, "A", "B");
      r.0 && LoadMovies(r.1) == map["B" := "2"]
  {
    var movies := [Doc("A", "1"), Doc("B", "2")];
    assert movies[0].key == "A";
    KeysHas(movies, 0);
    assert movies[1..] == [Doc("B", "2")];
    LoadSingle(Doc("B", "2"));
    RenameLoad(movies, "A", "B");
  }

  /** `check_if_admin`: a stub that accepts every channel. */
  function CheckIfAdmin(channelId: string): (r: bool)
    ensures r
  {
    true
  }
}
