/** database.py: the MongoDB-backed store. Movies are keyed by name and users
    by id; both collections keep their keys unique (movies through upserts,
    users through the unique index on `user_id`), which `Valid` states and
    every operation here preserves. Sent-file records are a plain list. */
module Database {
  import opened Wrappers
  import opened KeyedDocs

  type Movies = seq<Doc<string, string>>   // name -> file_id
  type Users = seq<Doc<int, string>>       // user_id -> display_name

  /** One document of `sent_files`. */
  datatype SentFile = SentFile(chat: int, fileMessageId: int, warningMessageId: int, timestamp: int)

  datatype Stats = Stats(movieCount: nat, userCount: nat)

  /** Default look-back window of `get_pending_files`, in minutes. */
  const EXPIRY_MINUTES: nat := 15

  predicate Valid(movies: Movies, users: Users) {
    UniqueKeys(movies) && UniqueKeys(users)
  }

  /** `load_movies`: name -> file_id. */
  function LoadMovies(movies: Movies): (m: map<string, string>)
    ensures m.Keys == Keys(movies)
    ensures UniqueKeys(movies) ==> |m| == |movies|
    ensures UniqueKeys(movies) ==>
      forall i :: 0 <= i < |movies| ==> movies[i].key in m && m[movies[i].key] == movies[i].value
  {
    assert UniqueKeys(movies) ==> |Load(movies)| == |movies| by {
      if UniqueKeys(movies) { LoadSize(movies); }
    }
    forall i | 0 <= i < |movies| && UniqueKeys(movies)
      ensures movies[i].key in Load(movies) && Load(movies)[movies[i].key] == movies[i].value
    {
      LoadLast(movies, i);
    }
    Load(movies)
  }

  /** `save_movie`: upsert of name -> file_id. */
  function SaveMovie(movies: Movies, name: string, fileId: string): (r: Movies)
    ensures UniqueKeys(movies) ==> UniqueKeys(r) && Load(r) == Load(movies)[name := fileId]
    ensures |r| == if name in Keys(movies) then |movies| else |movies| + 1
  {
    Upsert(movies, name, fileId)
  }

  /** `delete_movie`: removes the name; an absent name is a no-op. */
  function DeleteMovie(movies: Movies, name: string): (r: Movies)
    ensures UniqueKeys(movies) ==> UniqueKeys(r) && Load(r) == Load(movies) - {name}
    ensures name !in Load(movies) ==> r == movies
  {
    DeleteOne(movies, name)
  }

  /** `rename_movie`: the movie's file id moves from `from` to `to`,
      overwriting whatever `to` held; `false` when `from` is absent. */
  function RenameMovie(movies: Movies, from: string, to: string): (r: (bool, Movies))
    ensures r.0 <==> from in Load(movies)
    ensures !r.0 ==> r.1 == movies
    ensures UniqueKeys(movies) ==> UniqueKeys(r.1)
    ensures UniqueKeys(movies) && r.0 ==> Load(r.1) == (Load(movies) - {from})[to := Load(movies)[from]]
  {
    match FindOne(movies, from)
    case None => (false, movies)
    case Some(fileId) => (true, SaveMovie(DeleteMovie(movies, from), to, fileId))
  }

  /** `display_name or "Unknown"`. */
  function StoredName(displayName: string): (s: string)
    ensures s != []
    ensures displayName != [] ==> s == displayName
    ensures displayName == [] ==> s == "Unknown"
  {
    if displayName == [] then "Unknown" else displayName
  }

  /** `add_user`: upsert keyed by user id. */
  function AddUser(users: Users, userId: int, displayName: string): (r: Users)
    ensures UniqueKeys(users) ==> UniqueKeys(r) && Load(r) == Load(users)[userId := StoredName(displayName)]
    ensures |r| == if userId in Load(users) then |users| else |users| + 1
  {
    Upsert(users, userId, StoredName(displayName))
  }

  /** `get_stats`: document counts. */
  function GetStats(movies: Movies, users: Users): (s: Stats)
    ensures s.movieCount == |movies| && s.userCount == |users|
  {
    Stats(|movies|, |users|)
  }

  /** On a valid store the counts are the numbers of distinct movies and users. */
  lemma StatsCountDistinct(movies: Movies, users: Users)
    requires Valid(movies, users)
    ensures GetStats(movies, users) == Stats(|Load(movies)|, |Load(users)|)
  {
    LoadSize(movies);
    LoadSize(users);
  }

  /** `save_sent_file`: `insert_one` appends a record. */
  function SaveSentFile(sent: seq<SentFile>, chat: int, fileMessageId: int, warningMessageId: int, timestamp: int): (r: seq<SentFile>)
    ensures |r| == |sent| + 1 && r[..|sent|] == sent
    ensures r[|sent|] == SentFile(chat, fileMessageId, warningMessageId, timestamp)
  {
    sent + [SentFile(chat, fileMessageId, warningMessageId, timestamp)]
  }

  predicate Recent(f: SentFile, cutoff: int) {
    f.timestamp >= cutoff
  }

  /** `a` is `b` with some elements left out, the rest in their order. */
  predicate Subseq<T(==)>(a: seq<T>, b: seq<T>)
    decreases |b|
  {
    a == [] || (b != [] && ((a[0] == b[0] && Subseq(a[1..], b[1..])) || Subseq(a, b[1..])))
  }

  /** `get_pending_files(expiry_minutes)` at time `now`: the records with
      `timestamp >= now - 60 * expiry_minutes`, in stored order. */
  function GetPendingFiles(sent: seq<SentFile>, expiryMinutes: int, now: int): (r: seq<SentFile>)
    ensures |r| <= |sent|
    ensures forall i :: 0 <= i < |r| ==> r[i] in sent && Recent(r[i], now - expiryMinutes * 60)
    ensures forall f :: f in sent && Recent(f, now - expiryMinutes * 60) ==> f in r
    ensures multiset(r) <= multiset(sent)
    ensures forall f :: multiset(r)[f] == if Recent(f, now - expiryMinutes * 60) then multiset(sent)[f] else 0
    ensures Subseq(r, sent)
  {
    Filter(sent, now - expiryMinutes * 60)
  }

  function Filter(sent: seq<SentFile>, cutoff: int): (r: seq<SentFile>)
    ensures |r| <= |sent|
    ensures forall i :: 0 <= i < |r| ==> r[i] in sent && Recent(r[i], cutoff)
    ensures forall f :: f in sent && Recent(f, cutoff) ==> f in r
    ensures multiset(r) <= multiset(sent)
    ensures forall f :: multiset(r)[f] == if Recent(f, cutoff) then multiset(sent)[f] else 0
    ensures Subseq(r, sent)
  {
    if sent == [] then []
    else
      assert sent == [sent[0]] + sent[1..];
      var rest := Filter(sent[1..], cutoff);
      if Recent(sent[0], cutoff) then [sent[0]] + rest else rest
  }

  predicate Matches(f: SentFile, chat: int, fileMessageId: int) {
    f.chat == chat && f.fileMessageId == fileMessageId
  }

  /** Position of the first record for `(chat, fileMessageId)`. */
  function FirstMatch(sent: seq<SentFile>, chat: int, fileMessageId: int): (r: Option<nat>)
    ensures r.Some? ==> r.value < |sent| && Matches(sent[r.value], chat, fileMessageId)
    ensures r.Some? ==> forall j :: 0 <= j < r.value ==> !Matches(sent[j], chat, fileMessageId)
    ensures r.None? ==> forall j :: 0 <= j < |sent| ==> !Matches(sent[j], chat, fileMessageId)
  {
    if sent == [] then None
    else if Matches(sent[0], chat, fileMessageId) then Some(0)
    else match FirstMatch(sent[1..], chat, fileMessageId)
      case None => None
      case Some(i) => Some(i + 1)
  }

  /** `delete_sent_file_record`: `delete_one` on `(chat_id, file_message_id)`
      removes the first matching record and nothing else. */
  function DeleteSentFileRecord(sent: seq<SentFile>, chat: int, fileMessageId: int): (r: seq<SentFile>)
    ensures (forall i :: 0 <= i < |sent| ==> !Matches(sent[i], chat, fileMessageId)) ==> r == sent
    ensures (exists i :: 0 <= i < |sent| && Matches(sent[i], chat, fileMessageId)) ==>
      exists i :: 0 <= i < |sent| && Matches(sent[i], chat, fileMessageId)
        && (forall j :: 0 <= j < i ==> !Matches(sent[j], chat, fileMessageId))
        && r == sent[..i] + sent[i + 1..]
  {
    match FirstMatch(sent, chat, fileMessageId)
    case None => sent
    case Some(i) => sent[..i] + sent[i + 1..]
  }

  /** How many records are stored for `(chat, fileMessageId)`. */
  function Count(sent: seq<SentFile>, chat: int, fileMessageId: int): (n: nat)
    ensures n <= |sent|
    ensures n == 0 <==> forall i :: 0 <= i < |sent| ==> !Matches(sent[i], chat, fileMessageId)
  {
    if sent == [] then 0
    else
      var rest := Count(sent[1..], chat, fileMessageId);
      assert forall i :: 1 <= i < |sent| ==> sent[i] == sent[1..][i - 1];
      (if Matches(sent[0], chat, fileMessageId) then 1 else 0) + rest
  }

  lemma {:induction false} CountAppend(a: seq<SentFile>, b: seq<SentFile>, chat: int, fileMessageId: int)
    ensures Count(a + b, chat, fileMessageId) == Count(a, chat, fileMessageId) + Count(b, chat, fileMessageId)
  {
    if a == [] {
      assert a + b == b;
    } else {
      assert (a + b)[1..] == a[1..] + b;
      CountAppend(a[1..], b, chat, fileMessageId);
    }
  }

  /** Deleting a record lowers the count of its key by one, when there is
      one, and leaves every other key's count alone. */
  lemma DeleteSentFileRecordCount(sent: seq<SentFile>, chat: int, fileMessageId: int, c: int, f: int)
    ensures Count(DeleteSentFileRecord(sent, chat, fileMessageId), c, f) ==
      if c == chat && f == fileMessageId && Count(sent, c, f) > 0 then Count(sent, c, f) - 1 else Count(sent, c, f)
  {
    match FirstMatch(sent, chat, fileMessageId)
    case None =>
    case Some(i) =>
      assert sent == sent[..i] + [sent[i]] + sent[i + 1..];
      CountAppend(sent[..i] + [sent[i]], sent[i + 1..], c, f);
      CountAppend(sent[..i], [sent[i]], c, f);
      CountAppend(sent[..i], sent[i + 1..], c, f);
      assert Count([sent[i]], c, f) == if Matches(sent[i], c, f) then 1 else 0;
  }

  /** The look-back query never returns more records of a key than are stored. */
  lemma {:induction false} FilterCount(sent: seq<SentFile>, cutoff: int, c: int, f: int)
    ensures Count(Filter(sent, cutoff), c, f) <= Count(sent, c, f)
  {
    if sent != [] {
      FilterCount(sent[1..], cutoff, c, f);
      var rest := Filter(sent[1..], cutoff);
      if Recent(sent[0], cutoff) {
        assert ([sent[0]] + rest)[1..] == rest;
      }
    }
  }
}
