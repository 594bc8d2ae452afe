/** Movie-catalogue helpers of backend/server.js: the TMDB movie formatter,
    the genre-name table, the genre-id query built from genre names, and the
    id-to-name rendering used by the history endpoints. */
module Catalog {
  import opened Options
  import Strings
  import Decimal

  /** Base of every poster URL. */
  const PosterBase: string := "https://image.tmdb.org/t/p/w500"

  /** The fields of a TMDB movie object the formatter reads; None is an
      absent field or null. */
  datatype TmdbMovie = TmdbMovie(
    id: int, title: string, overview: string,
    posterPath: Option<string>, releaseDate: Option<string>,
    voteAverage: real, genreIds: Option<seq<int>>)

  /** The simplified movie the API returns. */
  datatype Movie = Movie(
    id: int, title: string, overview: string,
    posterUrl: Option<string>, releaseYear: string,
    rating: real, genreIds: seq<int>)

  /** `poster_url`: a URL under PosterBase when the path is truthy, else null. */
  function PosterUrl(path: Option<string>): (r: Option<string>)
    ensures r.Some? <==> Present(path)
    ensures r.Some? ==> PosterBase <= r.value && r.value[|PosterBase|..] == path.value
  {
    if Present(path) then Some(PosterBase + path.value) else None
  }

  /** Distinct poster paths give distinct URLs. */
  lemma PosterUrlInjective(p: Option<string>, q: Option<string>)
    requires Present(p) && Present(q) && PosterUrl(p) == PosterUrl(q)
    ensures p == q
  {
    assert PosterUrl(p).value[|PosterBase|..] == p.value;
  }

  /** `release_year`: the text before the first '-' of a truthy release
      date, else "N/A". */
  function ReleaseYear(date: Option<string>): (r: string)
    ensures !Present(date) ==> r == "N/A"
    ensures Present(date) ==> r <= date.value && '-' !in r
    ensures Present(date) && |r| < |date.value| ==> date.value[|r|] == '-'
  {
    if Present(date) then Strings.Before(date.value, '-') else "N/A"
  }

  /** A date written year-dash-rest yields its year. */
  lemma ReleaseYearOfDate(year: string, rest: string)
    requires '-' !in year
    ensures ReleaseYear(Some(year + "-" + rest)) == year
  {
    Strings.BeforeOfJoined(year, '-', rest);
  }

  /** `formatTmdbMovie`. */
  function FormatTmdbMovie(m: TmdbMovie): (r: Movie)
    ensures r.id == m.id && r.title == m.title && r.overview == m.overview
    ensures r.rating == m.voteAverage
    ensures r.posterUrl == PosterUrl(m.posterPath)
    ensures r.releaseYear == ReleaseYear(m.releaseDate)
    ensures m.genreIds.Some? ==> r.genreIds == m.genreIds.value
    ensures m.genreIds.None? ==> r.genreIds == []
  {
    Movie(m.id, m.title, m.overview, PosterUrl(m.posterPath), ReleaseYear(m.releaseDate),
          m.voteAverage, m.genreIds.GetOr([]))
  }

  /** `TMDB_GENRE_MAP`: lower-case genre name to TMDB genre id. */
  const GenreMap: map<string, nat> := map[
    "action" := 28, "adventure" := 12, "animation" := 16, "comedy" := 35,
    "crime" := 80, "documentary" := 99, "drama" := 18, "family" := 10751,
    "fantasy" := 14, "history" := 36, "horror" := 27, "music" := 10402,
    "mystery" := 9648, "romance" := 10749, "science fiction" := 878,
    "tv movie" := 10770, "thriller" := 53, "war" := 10752, "western" := 37
  ]

  ghost predicate Injective(m: map<string, nat>) {
    forall a, b :: a in m && b in m && m[a] == m[b] ==> a == b
  }

  /** `Object.fromEntries(Object.entries(m).map(([name, id]) => [id, name]))`
      for a table whose ids are distinct: an exact inverse. */
  function Invert(m: map<string, nat>): (inv: map<nat, string>)
    requires Injective(m)
    ensures forall n :: n in m ==> m[n] in inv && inv[m[n]] == n
    ensures forall id :: id in inv ==> inv[id] in m && m[inv[id]] == id
  {
    map n | n in m :: m[n] := n
  }

  /** No two genres share an id. */
  lemma GenreMapInjective()
    ensures Injective(GenreMap)
  {
    forall a, b | a in GenreMap && b in GenreMap && GenreMap[a] == GenreMap[b]
      ensures a == b
    {
    }
  }

  /** The inverted table `getGenreNames` looks ids up in. */
  function GenreIdToName(): (inv: map<nat, string>)
    ensures forall n :: n in GenreMap ==> GenreMap[n] in inv && inv[GenreMap[n]] == n
    ensures forall id :: id in inv ==> inv[id] in GenreMap && GenreMap[inv[id]] == id
  {
    GenreMapInjective();
    Invert(GenreMap)
  }

  predicate LowerInitial(n: string) {
    |n| > 0 && 'a' <= n[0] <= 'z'
  }

  /** Every genre name is non-empty and starts with a lower-case letter. */
  lemma GenreNamesLowerCase(n: string)
    requires n in GenreMap
    ensures LowerInitial(n)
  {
  }

  /** A name survives `map(name => TMDB_GENRE_MAP[name]).filter(Boolean)`
      when the table knows it and its id is not the falsy 0. */
  predicate Keeps(table: map<string, nat>, name: string) {
    name in table && table[name] != 0
  }

  /** The ids of the names a table keeps, in order: the
      `map(name => TMDB_GENRE_MAP[name]).filter(Boolean)` step. */
  function LookupIds(table: map<string, nat>, names: seq<string>): (ids: seq<nat>)
    ensures |ids| <= |names|
    ensures forall i :: 0 <= i < |ids| ==> ids[i] in table.Values && ids[i] != 0
    ensures ids == [] <==> forall j :: 0 <= j < |names| ==> !Keeps(table, names[j])
  {
    if names == [] then []
    else
      var rest := LookupIds(table, names[1..]);
      assert forall j :: 1 <= j < |names| ==> names[j] == names[1..][j - 1];
      (if Keeps(table, names[0]) then [table[names[0]]] else []) + rest
  }

  /** No genre of the table has the falsy id 0, so the filter only drops
      unknown names. */
  lemma GenreIdsNonZero(n: string)
    requires n in GenreMap
    ensures Keeps(GenreMap, n)
  {
  }

  /** `ids.join(',')`. */
  function JoinIds(ids: seq<nat>): (s: string)
    ensures s == "" <==> ids == []
  {
    if ids == [] then ""
    else if |ids| == 1 then Decimal.NatToString(ids[0])
    else Decimal.NatToString(ids[0]) + "," + JoinIds(ids[1..])
  }

  /** Splitting the joined ids at ',' gives back each id's numeral, in order. */
  lemma {:induction false} SplitJoinIds(ids: seq<nat>)
    requires ids != []
    ensures Strings.Split(JoinIds(ids), ',') ==
      seq(|ids|, i requires 0 <= i < |ids| => Decimal.NatToString(ids[i]))
  {
    var first := Decimal.NatToString(ids[0]);
    if |ids| == 1 {
      Strings.BeforeOfPlain(first, ',');
    } else {
      SplitJoinIds(ids[1..]);
      Strings.SplitOfJoined(first, ',', JoinIds(ids[1..]));
      assert first + "," + JoinIds(ids[1..]) == first + [','] + JoinIds(ids[1..]);
    }
  }

  /** The `with_genres` value sent to the discover endpoint, or None when the
      join is empty and the handler falls back to top-rated movies. */
  function GenreQuery(names: seq<string>): (r: Option<string>)
    ensures r.None? <==> forall j :: 0 <= j < |names| ==> names[j] !in GenreMap
    ensures r.Some? ==>
      Strings.Split(r.value, ',') ==
      seq(|LookupIds(GenreMap, names)|, i requires 0 <= i < |LookupIds(GenreMap, names)| => Decimal.NatToString(LookupIds(GenreMap, names)[i]))
  {
    forall j | 0 <= j < |names| && names[j] in GenreMap
      ensures Keeps(GenreMap, names[j])
    {
      GenreIdsNonZero(names[j]);
    }
    var joined := JoinIds(LookupIds(GenreMap, names));
    if joined == "" then None
    else
      SplitJoinIds(LookupIds(GenreMap, names));
      Some(joined)
  }

  /** `name.charAt(0).toUpperCase() + name.slice(1)`. */
  function Capitalize(s: string): (r: string)
    ensures |r| == |s|
    ensures s != [] ==> r[1..] == s[1..] && !('a' <= r[0] <= 'z')
  {
    if s == [] then [] else [Strings.UpperChar(s[0])] + s[1..]
  }

  /** Lower-casing the first character again undoes the capitalisation of a
      name that started with a lower-case letter. */
  function Uncapitalize(s: string): string {
    if s == [] then [] else [Strings.LowerChar(s[0])] + s[1..]
  }

  lemma UncapitalizeCapitalize(n: string)
    requires LowerInitial(n)
    ensures Uncapitalize(Capitalize(n)) == n
  {
    assert Capitalize(n) == [Strings.UpperChar(n[0])] + n[1..];
  }

  /** The capitalised name of each id an inverted table knows, unknown ids
      dropped. */
  function NamesOfIds(inv: map<nat, string>, ids: seq<int>): (r: seq<string>)
    requires forall id :: id in inv ==> LowerInitial(inv[id])
    ensures |r| <= |ids|
    ensures forall i :: 0 <= i < |r| ==> Uncapitalize(r[i]) in inv.Values
    ensures forall i :: 0 <= i < |r| ==> r[i] == Capitalize(Uncapitalize(r[i]))
  {
    if ids == [] then []
    else
      var rest := NamesOfIds(inv, ids[1..]);
      if ids[0] >= 0 && ids[0] as nat in inv then
        UncapitalizeCapitalize(inv[ids[0] as nat]);
        [Capitalize(inv[ids[0] as nat])] + rest
      else rest
  }

  /** Rendering a list of ids is rendering its parts one after the other. */
  lemma {:induction false} NamesOfIdsConcat(inv: map<nat, string>, a: seq<int>, b: seq<int>)
    requires forall id :: id in inv ==> LowerInitial(inv[id])
    ensures NamesOfIds(inv, a + b) == NamesOfIds(inv, a) + NamesOfIds(inv, b)
  {
    if a == [] {
      assert a + b == b;
    } else {
      NamesOfIdsConcat(inv, a[1..], b);
      assert (a + b)[1..] == a[1..] + b;
    }
  }

  /** One id renders as its capitalised name when the table knows it, and
      as nothing otherwise (the `filter(Boolean)` step). */
  lemma NamesOfIdsSingle(inv: map<nat, string>, id: int)
    requires forall id :: id in inv ==> LowerInitial(inv[id])
    ensures NamesOfIds(inv, [id]) ==
      if id >= 0 && id as nat in inv then [Capitalize(inv[id as nat])] else []
  {
    assert [id][1..] == [];
  }

  /** `getGenreNames`: each result is the capitalised form of a genre of the
      table. */
  function GetGenreNames(ids: seq<int>): (r: seq<string>)
    ensures |r| <= |ids|
    ensures forall i :: 0 <= i < |r| ==> Uncapitalize(r[i]) in GenreMap
    ensures forall i :: 0 <= i < |r| ==> r[i] == Capitalize(Uncapitalize(r[i]))
  {
    GetGenreNamesLowerInitial();
    NamesOfIds(GenreIdToName(), ids)
  }

  /** `getGenreNames` maps over its list: the names of a concatenation are
      the names of its parts, concatenated. */
  lemma GetGenreNamesConcat(a: seq<int>, b: seq<int>)
    ensures GetGenreNames(a + b) == GetGenreNames(a) + GetGenreNames(b)
  {
    GetGenreNamesLowerInitial();
    NamesOfIdsConcat(GenreIdToName(), a, b);
  }

  /** The names a table keeps, in order. */
  function KnownNames(table: map<string, nat>, names: seq<string>): (r: seq<string>)
    ensures forall i :: 0 <= i < |r| ==> Keeps(table, r[i])
  {
    if names == [] then []
    else (if Keeps(table, names[0]) then [names[0]] else []) + KnownNames(table, names[1..])
  }
  /** The known names are exactly the names of the list the table keeps:
      none is invented and none is lost. */
  lemma {:induction false} KnownNamesExactly(table: map<string, nat>, names: seq<string>)
    ensures |KnownNames(table, names)| <= |names|
    ensures forall n :: n in KnownNames(table, names) <==> n in names && Keeps(table, n)
  {
    if names != [] {
      KnownNamesExactly(table, names[1..]);
      assert forall n :: n in names <==> n == names[0] || n in names[1..];
    }
  }

  lemma {:induction false} KnownNamesConcat(table: map<string, nat>, a: seq<string>, b: seq<string>)
    ensures KnownNames(table, a + b) == KnownNames(table, a) + KnownNames(table, b)
  {
    if a == [] {
      assert a + b == b;
    } else {
      KnownNamesConcat(table, a[1..], b);
      assert (a + b)[1..] == a[1..] + b;
    }
  }


  /** Each name capitalised, in order. */
  function CapitalizeAll(names: seq<string>): (r: seq<string>)
    ensures |r| == |names|
    ensures forall i :: 0 <= i < |names| ==> r[i] == Capitalize(names[i])
  {
    if names == [] then [] else [Capitalize(names[0])] + CapitalizeAll(names[1..])
  }

  /** For any table with distinct ids, names to ids and back through the
      inverted table gives the known names, capitalised, in their original
      order. */
  lemma {:induction false} NamesOfLookupIds(table: map<string, nat>, names: seq<string>)
    requires Injective(table)
    requires forall n :: n in table ==> LowerInitial(n)
    ensures NamesOfIds(Invert(table), LookupIds(table, names)) == CapitalizeAll(KnownNames(table, names))
  {
    if names != [] {
      NamesOfLookupIds(table, names[1..]);
      var ids := LookupIds(table, names);
      var known := KnownNames(table, names);
      if Keeps(table, names[0]) {
        assert ids == [table[names[0]]] + LookupIds(table, names[1..]);
        assert ids[1..] == LookupIds(table, names[1..]);
        assert known == [names[0]] + KnownNames(table, names[1..]);
        assert known[1..] == KnownNames(table, names[1..]);
      } else {
        assert ids == LookupIds(table, names[1..]);
        assert known == KnownNames(table, names[1..]);
      }
    }
  }

  /** The genre-query ids of a list of names, rendered back by getGenreNames,
      are the names the genre table knows, capitalised, in order. */
  lemma GenreNamesOfGenreIds(names: seq<string>)
    ensures GetGenreNames(LookupIds(GenreMap, names)) == CapitalizeAll(KnownNames(GenreMap, names))
  {
    GenreMapInjective();
    forall n | n in GenreMap
      ensures LowerInitial(n)
    {
      GenreNamesLowerCase(n);
    }
    NamesOfLookupIds(GenreMap, names);
  }

  /** The id-to-name table written out inside the first `/api/user-history`
      handler, which is the one requests reach. */
  const HistoryGenreMap: map<int, string> := map[
    28 := "Action", 12 := "Adventure", 16 := "Animation", 35 := "Comedy", 80 := "Crime",
    99 := "Documentary", 18 := "Drama", 10751 := "Family", 14 := "Fantasy", 36 := "History",
    27 := "Horror", 10402 := "Music", 9648 := "Mystery", 10749 := "Romance", 878 := "Science Fiction",
    10770 := "TV Movie", 53 := "Thriller", 10752 := "War", 37 := "Western"
  ]

  /** `(item.movie_genre_ids || []).map(id => genreMap[id]).filter(Boolean)`. */
  function HistoryGenreNames(ids: seq<int>): (r: seq<string>)
    ensures |r| <= |ids|
    ensures forall i :: 0 <= i < |r| ==> r[i] in HistoryGenreMap.Values
  {
    if ids == [] then []
    else (if ids[0] in HistoryGenreMap then [HistoryGenreMap[ids[0]]] else []) + HistoryGenreNames(ids[1..])
  }

  lemma {:induction false} HistoryGenreNamesConcat(a: seq<int>, b: seq<int>)
    ensures HistoryGenreNames(a + b) == HistoryGenreNames(a) + HistoryGenreNames(b)
  {
    if a == [] {
      assert a + b == b;
    } else {
      HistoryGenreNamesConcat(a[1..], b);
      assert (a + b)[1..] == a[1..] + b;
    }
  }

  /** One id gives its inline-table name, or nothing for an id the table
      lacks. */
  lemma HistoryGenreNamesSingle(id: int)
    ensures HistoryGenreNames([id]) == if id in HistoryGenreMap then [HistoryGenreMap[id]] else []
  {
    assert [id][1..] == [];
  }

  /** A single id is printed as its capitalised table name when the table
      knows it, and dropped otherwise. */
  lemma GetGenreNamesSingle(id: int)
    ensures GetGenreNames([id]) ==
      if id >= 0 && id as nat in GenreIdToName() then [Capitalize(GenreIdToName()[id as nat])] else []
  {
    GetGenreNamesLowerInitial();
    NamesOfIdsSingle(GenreIdToName(), id);
  }

  lemma GetGenreNamesLowerInitial()
    ensures forall id :: id in GenreIdToName() ==> LowerInitial(GenreIdToName()[id])
  {
    var inv := GenreIdToName();
    forall id | id in inv
      ensures LowerInitial(inv[id])
    {
      GenreNamesLowerCase(inv[id]);
    }
  }

  lemma CapitalizeTwoWordGenres()
    ensures Capitalize("science fiction") == "Science fiction" && Capitalize("tv movie") == "Tv movie"
  {
    assert Capitalize("science fiction") == [Strings.UpperChar('s')] + "cience fiction";
    assert Capitalize("tv movie") == [Strings.UpperChar('t')] + "v movie";
  }

  lemma GenreIdsOfTwoWordGenres()
    ensures 878 in GenreIdToName() && GenreIdToName()[878] == "science fiction"
    ensures 10770 in GenreIdToName() && GenreIdToName()[10770] == "tv movie"
  {
    assert GenreMap["science fiction"] == 878 && GenreMap["tv movie"] == 10770;
  }

  /** getGenreNames prints genres 878 and 10770 as "Science fiction" and
      "Tv movie", while the inline table prints "Science Fiction" and
      "TV Movie". */
  lemma HistoryGenreNamesDiffer()
    ensures GetGenreNames([878]) == ["Science fiction"] && HistoryGenreNames([878]) == ["Science Fiction"]
    ensures GetGenreNames([10770]) == ["Tv movie"] && HistoryGenreNames([10770]) == ["TV Movie"]
  {
    GenreIdsOfTwoWordGenres();
    CapitalizeTwoWordGenres();
    GetGenreNamesSingle(878);
    GetGenreNamesSingle(10770);
    HistoryGenreNamesSingle(878);
    HistoryGenreNamesSingle(10770);
  }

  /** 999 is not the id of any genre. */
  lemma GenreIdUnknown999()
    ensures 999 !in GenreIdToName()
  {
    forall n | n in GenreMap
      ensures GenreMap[n] != 999
    {
    }
  }

  lemma GenreIdsOfActionAdventure()
    ensures 28 in GenreIdToName() && GenreIdToName()[28] == "action"
    ensures 12 in GenreIdToName() && GenreIdToName()[12] == "adventure"
  {
    assert GenreMap["action"] == 28 && GenreMap["adventure"] == 12;
  }

  lemma CapitalizeActionAdventure()
    ensures Capitalize("action") == "Action" && Capitalize("adventure") == "Adventure"
  {
    assert Capitalize("action") == [Strings.UpperChar('a')] + "ction";
    assert Capitalize("adventure") == [Strings.UpperChar('a')] + "dventure";
  }

  /** An unknown id between two known ones is dropped, for any table. */
  lemma {:induction false} NamesOfIdsSkipsUnknown(inv: map<nat, string>, x: nat, u: nat, y: nat)
    requires forall id :: id in inv ==> LowerInitial(inv[id])
    requires x in inv && u !in inv && y in inv
    ensures NamesOfIds(inv, [x, u, y]) == [Capitalize(inv[x]), Capitalize(inv[y])]
  {
    NamesOfIdsSingle(inv, x);
    NamesOfIdsSingle(inv, u);
    NamesOfIdsSingle(inv, y);
    NamesOfIdsConcat(inv, [u], [y]);
    NamesOfIdsConcat(inv, [x], [u, y]);
    assert [x] + ([u] + [y]) == [x, u, y];
  }

  /** An id the table does not know is dropped between known ones:
      `getGenreNames([28, 999, 12])` is `["Action", "Adventure"]`. */
  lemma GetGenreNamesDropsUnknown()
    ensures GetGenreNames([28, 999, 12]) == ["Action", "Adventure"]
  {
    var inv := GenreIdToName();
    GetGenreNamesLowerInitial();
    GenreIdsOfActionAdventure();
    GenreIdUnknown999();
    CapitalizeActionAdventure();
    NamesOfIdsSkipsUnknown(inv, 28, 999, 12);
  }
}
