/** The `/start` deep link: `/get_movie_link` puts the movie name into a
    `t.me` link with every space turned into `_`; the `/start <payload>`
    message Telegram sends back is decoded by deleting every `"/start "` and
    turning every `_` into a space. */
module DeepLink {
  import opened PyStr
  import Config

  const START: string := "/start "

  /** `movie_name.replace(" ", "_")`. */
  function Encode(name: string): (e: string)
    ensures |e| == |name|
    ensures forall i :: 0 <= i < |e| ==> e[i] != ' '
    ensures forall i :: 0 <= i < |e| ==> (name[i] == ' ' <==> e[i] == '_') || (name[i] == '_' && e[i] == '_')
    ensures forall i :: 0 <= i < |e| ==> e[i] == if name[i] == ' ' then '_' else name[i]
  {
    Replace(name, " ", "_")
  }

  /** The link sent to the admin. */
  function Link(name: string): string {
    "https://t.me/" + Config.BOT_USERNAME + "?start=" + Encode(name)
  }

  /** `text.replace('/start ', '').replace('_', ' ')`. */
  function Decode(text: string): (name: string)
    ensures forall i :: 0 <= i < |name| ==> name[i] != '_'
  {
    Replace(Replace(text, START, ""), "_", " ")
  }

  /** `s.replace(pat, rep)` on a string that starts with `pat`. */
  lemma ReplaceLeading(pat: string, s: string, rep: string)
    requires pat != []
    ensures Replace(pat + s, pat, rep) == rep + Replace(s, pat, rep)
  {
    assert (pat + s)[|pat|..] == s;
  }

  /** A string without spaces holds no `"/start "`. */
  lemma NoStartIn(e: string)
    requires forall i :: 0 <= i < |e| ==> e[i] != ' '
    ensures !Contains(e, START)
  {
    forall i | 0 <= i && i + |START| <= |e| ensures !OccursAt(e, START, i) {
      assert e[i..i + |START|][6] == e[i + 6] != START[6];
    }
  }

  /** Decoding the `/start` message of a link gives the name back exactly
      when the name has no underscore. */
  lemma {:induction false} RoundTrip(name: string)
    ensures Decode(START + Encode(name)) == name <==> forall i :: 0 <= i < |name| ==> name[i] != '_'
  {
    var e := Encode(name);
    ReplaceLeading(START, e, "");
    NoStartIn(e);
    assert Replace(START + e, START, "") == e;
    var d := Decode(START + e);
    assert |d| == |name|;
    if forall i :: 0 <= i < |name| ==> name[i] != '_' {
      forall i | 0 <= i < |name| ensures d[i] == name[i] {
        assert d[i] == (if e[i] == '_' then ' ' else e[i]);
      }
    } else {
      var i :| 0 <= i < |name| && name[i] == '_';
      assert d[i] == ' ';
    }
  }
}
