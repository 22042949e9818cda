/** The string helpers the pipeline relies on: Go's strings.Trim with the
    cutset " ", and joining identifiers with commas. */
module Text {

  predicate AllSpaces(s: string) {
    forall i :: 0 <= i < |s| ==> s[i] == ' '
  }

  /** Neither the first nor the last character is a space. */
  predicate NoEdgeSpace(s: string) {
    s == [] || (s[0] != ' ' && s[|s| - 1] != ' ')
  }

  function TrimLeft(s: string): string
  {
    if |s| > 0 && s[0] == ' ' then TrimLeft(s[1..]) else s
  }

  function TrimRight(s: string): string
  {
    if |s| > 0 && s[|s| - 1] == ' ' then TrimRight(s[..|s| - 1]) else s
  }

  /** strings.Trim(s, " "): only the space character is removed, at both ends. */
  function Trim(s: string): string
  {
    TrimRight(TrimLeft(s))
  }

  lemma {:induction false} TrimLeftSplit(s: string) returns (p: nat)
    ensures p <= |s| && AllSpaces(s[..p]) && TrimLeft(s) == s[p..]
    ensures TrimLeft(s) == [] || TrimLeft(s)[0] != ' '
  {
    if |s| > 0 && s[0] == ' ' {
      var p' := TrimLeftSplit(s[1..]);
      p := p' + 1;
      assert s[1..][..p'] == s[1..p];
      assert s[1..][p'..] == s[p..];
    } else {
      p := 0;
    }
  }

  lemma {:induction false} TrimRightSplit(s: string) returns (q: nat)
    ensures q <= |s| && AllSpaces(s[q..]) && TrimRight(s) == s[..q]
    ensures TrimRight(s) == [] || TrimRight(s)[|TrimRight(s)| - 1] != ' '
  {
    if |s| > 0 && s[|s| - 1] == ' ' {
      var init := s[..|s| - 1];
      q := TrimRightSplit(init);
      assert init[..q] == s[..q];
      assert s[q..] == init[q..] + [' '];
    } else {
      q := |s|;
    }
  }

  lemma {:induction false} TrimLeftOfNoLeadingSpace(s: string)
    requires s == [] || s[0] != ' '
    ensures TrimLeft(s) == s
  {
  }

  lemma {:induction false} TrimRightKeepsNoLeadingSpace(s: string)
    requires s == [] || s[0] != ' '
    ensures TrimRight(s) == [] || TrimRight(s)[0] != ' '
  {
    var q := TrimRightSplit(s);
  }

  /** The trimmed text is what lies between a run of leading spaces and a run
      of trailing spaces, and it neither starts nor ends with a space. */
  lemma TrimSplit(s: string) returns (p: nat, q: nat)
    ensures p <= q <= |s|
    ensures AllSpaces(s[..p]) && AllSpaces(s[q..])
    ensures Trim(s) == s[p..q]
    ensures NoEdgeSpace(Trim(s))
  {
    p := TrimLeftSplit(s);
    var rest := s[p..];
    var q' := TrimRightSplit(rest);
    TrimRightKeepsNoLeadingSpace(rest);
    q := p + q';
    assert rest[..q'] == s[p..q];
    assert rest[q'..] == s[q..];
  }

  lemma {:induction false} TrimLeftPrefix(s: string, p: nat)
    requires p <= |s| && AllSpaces(s[..p])
    requires p == |s| || s[p] != ' '
    ensures TrimLeft(s) == s[p..]
    decreases p
  {
    if p > 0 {
      assert s[0] == s[..p][0];
      assert s[1..][..p - 1] == s[1..p];
      TrimLeftPrefix(s[1..], p - 1);
      assert s[1..][p - 1..] == s[p..];
    }
  }

  lemma {:induction false} TrimRightSuffix(s: string, q: nat)
    requires q <= |s| && AllSpaces(s[q..])
    requires q == 0 || s[q - 1] != ' '
    ensures TrimRight(s) == s[..q]
    decreases |s| - q
  {
    if q < |s| {
      var init := s[..|s| - 1];
      assert s[|s| - 1] == s[q..][|s| - 1 - q];
      assert init[q..] == s[q..|s| - 1];
      TrimRightSuffix(init, q);
      assert init[..q] == s[..q];
    } else {
      assert s[..q] == s;
    }
  }

  /** Trim is characterised uniquely: any split of s into leading spaces, a
      middle without edge spaces and trailing spaces has Trim(s) as middle. */
  lemma TrimUnique(s: string, p: nat, q: nat)
    requires p <= q <= |s|
    requires AllSpaces(s[..p]) && AllSpaces(s[q..])
    requires NoEdgeSpace(s[p..q])
    ensures Trim(s) == s[p..q]
  {
    if p == q {
      // the whole string is spaces
      assert AllSpaces(s) by {
        forall i | 0 <= i < |s| ensures s[i] == ' ' {
          if i < p { assert s[i] == s[..p][i]; } else { assert s[i] == s[q..][i - q]; }
        }
      }
      assert s[..|s|] == s;
      TrimLeftPrefix(s, |s|);
      assert TrimLeft(s) == [];
    } else {
      assert s[p] == s[p..q][0];
      TrimLeftPrefix(s, p);
      var rest := s[p..];
      assert rest[q - p..] == s[q..];
      assert rest[q - p - 1] == s[p..q][q - p - 1];
      TrimRightSuffix(rest, q - p);
      assert rest[..q - p] == s[p..q];
    }
  }

  /** A string without edge spaces is left as it is, whatever other
      whitespace (tabs, interior spaces) it holds. */
  lemma TrimKeepsNoEdgeSpace(s: string)
    requires NoEdgeSpace(s)
    ensures Trim(s) == s
  {
    assert s[..0] == [] && s[|s|..] == [] && s[0..|s|] == s;
    TrimUnique(s, 0, |s|);
  }

  lemma TrimIdempotent(s: string)
    ensures Trim(Trim(s)) == Trim(s)
  {
    var p, q := TrimSplit(s);
    TrimKeepsNoEdgeSpace(Trim(s));
  }

  /** Identifiers separated by single commas. */
  function JoinComma(ids: seq<string>): string
  {
    if |ids| == 0 then ""
    else if |ids| == 1 then ids[0]
    else JoinComma(ids[..|ids| - 1]) + "," + ids[|ids| - 1]
  }

  /** The identifiers from the first non-empty one on. */
  function DropLeadingEmpty(ids: seq<string>): (r: seq<string>)
    ensures r == [] || r[0] != ""
  {
    if |ids| == 0 then [] else if ids[0] == "" then DropLeadingEmpty(ids[1..]) else ids
  }

  lemma {:induction false} JoinCommaPrefix(ids: seq<string>)
    requires |ids| > 0
    ensures ids[0] <= JoinComma(ids)
  {
    if |ids| > 1 {
      var init := ids[..|ids| - 1];
      JoinCommaPrefix(init);
      assert init[0] == ids[0];
    }
  }

  /** Joined identifiers that are non-empty and have no comma at their edges
      give a text with no leading or trailing comma. */
  lemma JoinCommaNoEdgeComma(ids: seq<string>)
    requires |ids| > 0
    requires forall i :: 0 <= i < |ids| ==> ids[i] != "" && ids[i][0] != ',' && ids[i][|ids[i]| - 1] != ','
    ensures var s := JoinComma(ids); s != "" && s[0] != ',' && s[|s| - 1] != ','
  {
    JoinCommaPrefix(ids);
    var s := JoinComma(ids);
    assert s[0] == ids[0][0];
    var last := ids[|ids| - 1];
    if |ids| > 1 {
      assert s[|s| - 1] == last[|last| - 1];
    }
  }

  lemma {:induction false} DropLeadingEmptyAppend(ids: seq<string>, id: string)
    ensures DropLeadingEmpty(ids + [id]) ==
      if DropLeadingEmpty(ids) == [] then DropLeadingEmpty([id]) else DropLeadingEmpty(ids) + [id]
  {
    if |ids| > 0 {
      assert (ids + [id])[1..] == ids[1..] + [id];
      if ids[0] == "" {
        DropLeadingEmptyAppend(ids[1..], id);
      }
    }
  }

  lemma JoinAppend(ids: seq<string>, id: string)
    requires |ids| > 0
    ensures JoinComma(ids + [id]) == JoinComma(ids) + "," + id
  {
    var e := ids + [id];
    assert e[..|e| - 1] == ids;
  }

  /** Appending one identifier the way a builder does that writes a comma
      only once it holds some text. */
  lemma JoinStep(ids: seq<string>, id: string)
    ensures var s := JoinComma(DropLeadingEmpty(ids));
      JoinComma(DropLeadingEmpty(ids + [id])) == if |s| > 0 then s + "," + id else s + id
  {
    DropLeadingEmptyAppend(ids, id);
    var d := DropLeadingEmpty(ids);
    if d != [] {
      JoinCommaPrefix(d);
      JoinAppend(d, id);
    } else {
      assert [id][1..] == [];
    }
  }
}
