/**
 * The success page: it reads the `ids` query value, splits it on commas,
 * drops empty pieces and shows one share link per remaining id, or a "No
 * files found" notice when none remain.
 */
module Success {
  import opened Wrappers
  import opened Home

  /** String split on ",": n commas give n + 1 pieces, empty ones included. */
  function Split(s: string): (pieces: seq<string>)
    ensures |pieces| == Commas(s) + 1
    ensures forall i :: 0 <= i < |pieces| ==> ',' !in pieces[i]
  {
    if s == [] then [""]
    else
      var rest := Split(s[1..]);
      if s[0] == ',' then [""] + rest
      else [[s[0]] + rest[0]] + rest[1..]
  }

  /** The filter on non-empty pieces, in order. */
  function NonEmpty(pieces: seq<string>): (ids: seq<string>)
    ensures |ids| <= |pieces|
    ensures forall i :: 0 <= i < |ids| ==> ids[i] != "" && ids[i] in pieces
    ensures |pieces| == 1 ==> ids == if pieces[0] == "" then [] else pieces
  {
    if pieces == [] then []
    else (if pieces[0] == "" then [] else [pieces[0]]) + NonEmpty(pieces[1..])
  }

  /**
   * The filter distributes over concatenation; with the one-piece case this
   * fixes it on every input: each non-empty piece is kept, in order, and each
   * empty one dropped.
   */
  lemma {:induction false} NonEmptyAppend(a: seq<string>, b: seq<string>)
    ensures NonEmpty(a + b) == NonEmpty(a) + NonEmpty(b)
  {
    if a == [] {
      assert a + b == b;
    } else {
      assert (a + b)[0] == a[0] && (a + b)[1..] == a[1..] + b;
      NonEmptyAppend(a[1..], b);
    }
  }

  /** The ids the page shows; a missing `ids` parameter reads as "". No parsed id is empty or contains a comma. */
  function ParseIds(param: Option<string>): (ids: seq<string>)
    ensures forall i :: 0 <= i < |ids| ==> ids[i] != "" && ',' !in ids[i]
  {
    NonEmpty(Split(param.GetOr("")))
  }

  /** Joining the pieces with commas gives back the split string: splitting loses nothing and keeps order. */
  lemma {:induction false} JoinSplit(s: string)
    ensures Join(Split(s)) == s
  {
    if s != [] {
      var rest := Split(s[1..]);
      JoinSplit(s[1..]);
      if s[0] == ',' {
        assert Split(s) == [""] + rest;
        assert Join(Split(s)) == "" + "," + Join(rest);
      } else if |rest| == 1 {
        assert Split(s) == [[s[0]] + rest[0]];
      } else {
        assert Split(s)[1..] == rest[1..];
        assert Join(rest) == rest[0] + "," + Join(rest[1..]);
      }
    }
  }

  /** Splitting a comma-free prefix glued to a string extends that string's first piece. */
  lemma {:induction false} SplitCommaFreePrefix(a: string, t: string)
    requires ',' !in a
    ensures Split(a + t) == [a + Split(t)[0]] + Split(t)[1..]
  {
    if a == [] {
      assert a + t == t;
      assert a + Split(t)[0] == Split(t)[0];
      assert [Split(t)[0]] + Split(t)[1..] == Split(t);
    } else {
      assert a[0] != ',' by { assert a[0] in a; }
      assert (a + t)[0] == a[0];
      assert (a + t)[1..] == a[1..] + t;
      SplitCommaFreePrefix(a[1..], t);
      assert [a[0]] + (a[1..] + Split(t)[0]) == a + Split(t)[0];
    }
  }

  /** Splitting a comma-join of at least one comma-free string gives the strings back. */
  lemma {:induction false} SplitJoin(parts: seq<string>)
    requires |parts| >= 1
    requires forall i :: 0 <= i < |parts| ==> ',' !in parts[i]
    ensures Split(Join(parts)) == parts
  {
    if |parts| == 1 {
      SplitCommaFreePrefix(parts[0], "");
      assert parts[0] + "" == parts[0];
    } else {
      SplitJoin(parts[1..]);
      var tail := "," + Join(parts[1..]);
      SplitCommaFreePrefix(parts[0], tail);
      assert tail[1..] == Join(parts[1..]);
      assert Split(tail) == [""] + parts[1..];
      assert parts[0] + tail == Join(parts);
      assert parts[0] + "" == parts[0];
    }
  }

  lemma {:induction false} NonEmptyKeepsNonEmpty(ids: seq<string>)
    requires forall i :: 0 <= i < |ids| ==> ids[i] != ""
    ensures NonEmpty(ids) == ids
  {
    if ids != [] { NonEmptyKeepsNonEmpty(ids[1..]); }
  }

  /** The round trip: the page parses the comma-join of non-empty, comma-free ids back to the same list. */
  lemma ParseJoinRoundTrip(ids: seq<string>)
    requires forall i :: 0 <= i < |ids| ==> ids[i] != "" && ',' !in ids[i]
    ensures ParseIds(Some(Join(ids))) == ids
  {
    if ids == [] {
      assert Split("") == [""];
    } else {
      SplitJoin(ids);
      NonEmptyKeepsNonEmpty(ids);
    }
  }

  /** Empty pieces are dropped: "a,,b," shows two ids. */
  lemma ParseDropsEmptyPieces()
    ensures ParseIds(Some("a,,b,")) == ["a", "b"]
  {
    assert Split(",") == ["", ""] by { assert ","[1..] == ""; }
    assert Split("b,") == ["b", ""] by {
      assert "b,"[0] == 'b' && "b,"[1..] == ",";
      assert ['b'] + "" == "b";
    }
    assert Split(",b,") == ["", "b", ""] by { assert ",b,"[1..] == "b,"; }
    assert Split(",,b,") == ["", "", "b", ""] by { assert ",,b,"[1..] == ",b,"; }
    assert Split("a,,b,") == ["a", "", "b", ""] by {
      assert "a,,b,"[0] == 'a' && "a,,b,"[1..] == ",,b,";
      assert ['a'] + "" == "a";
    }
  }

  /**
   * The upload page's hand-off: the non-empty client ids it joins into the
   * success path are exactly the ids the success page shows, in upload order.
   */
  lemma HandOff(ids: seq<string>)
    requires forall i :: 0 <= i < |ids| ==> IsClientId(ids[i]) && ids[i] != ""
    ensures ParseIds(Some(Join(ids))) == ids
  {
    forall i | 0 <= i < |ids| ensures ',' !in ids[i] {
      assert IsClientId(ids[i]);
    }
    ParseJoinRoundTrip(ids);
  }

  /** The share link: the site's origin, "/file/", then the id; "" when there is no window. */
  function ShareUrl(origin: Option<string>, id: string): (url: string)
    ensures origin.None? ==> url == ""
    ensures origin.Some? ==>
      && |url| == |origin.value| + 6 + |id|
      && url[..|origin.value|] == origin.value
      && url[|origin.value|..|origin.value| + 6] == "/file/"
      && url[|origin.value| + 6..] == id
  {
    if origin.None? then "" else origin.value + "/file/" + id
  }

  /** What the page renders. */
  datatype View =
    | NoFilesFound
    | Links(ids: seq<string>, urls: seq<string>)

  function SuccessContent(param: Option<string>, origin: Option<string>): (view: View)
    ensures view.NoFilesFound? <==> ParseIds(param) == []
    ensures view.Links? ==>
      view.ids == ParseIds(param) && |view.urls| == |view.ids| &&
      forall i :: 0 <= i < |view.ids| ==> view.urls[i] == ShareUrl(origin, view.ids[i])
  {
    var accessIds := ParseIds(param);
    if |accessIds| == 0 then NoFilesFound
    else Links(accessIds, seq(|accessIds|, i requires 0 <= i < |accessIds| => ShareUrl(origin, accessIds[i])))
  }

  /** A string of commas only splits into empty pieces. */
  lemma {:induction false} SplitAllCommas(s: string)
    requires forall i :: 0 <= i < |s| ==> s[i] == ','
    ensures forall j :: 0 <= j < |Split(s)| ==> Split(s)[j] == ""
  {
    if s != [] {
      SplitAllCommas(s[1..]);
    }
  }

  lemma {:induction false} NonEmptyAllEmpty(pieces: seq<string>)
    requires forall j :: 0 <= j < |pieces| ==> pieces[j] == ""
    ensures NonEmpty(pieces) == []
  {
    if pieces != [] {
      NonEmptyAllEmpty(pieces[1..]);
    }
  }

  /** A missing `ids` parameter, or one made only of commas, shows "No files found". */
  lemma MissingIdsShowNothing(origin: Option<string>, param: string)
    requires forall i :: 0 <= i < |param| ==> param[i] == ','
    ensures SuccessContent(None, origin) == NoFilesFound
    ensures SuccessContent(Some(param), origin) == NoFilesFound
  {
    assert Split("") == [""];
    SplitAllCommas(param);
    NonEmptyAllEmpty(Split(param));
  }
}
