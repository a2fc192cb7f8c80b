/** Parameters read from the registry into typed properties: the layers of group and instance,
    and the parsing of list and map values (plugins/ParameterConfigPlugin.cxx). */
module Parameters {
  import opened Splitting
  import Text

  // ---- names ------------------------------------------------------------------------------

  const STRINGS: set<string> := {"id", "transport", "network-interface", "shm-allocation", "session", "config-key",
    "mq-config",
    "severity", "file-severity", "verbosity", "log-to-file"}
  const INTS: set<string> := {"io-threads", "init-timeout"}
  const BOOLS: set<string> := {"print-channels", "shm-mlock-segment", "shm-zero-segment", "shm-throw-bad-alloc",
    "shm-monitor"}
  const SIZES: set<string> := {"shm-segment-size", "color"}
  const UINT16S: set<string> := {"shm-segment-id"}
  const FLOATS: set<string> := {"rate"}
  const LISTS: set<string> := {"channel-config"}

  predicate IsReserved(name: string) {
    name in STRINGS || name in INTS || name in BOOLS || name in SIZES || name in UINT16S || name in FLOATS ||
      name in LISTS
  }

  datatype Kind = AString | AnInt | ABool | ASize | AFloat

  /** A property: a text, a text converted to a kind, a list or a map. */
  datatype Property = Value(text: string) | Converted(kind: Kind, text: string) | List(items: seq<string>)
    | Table(entries: map<string, string>)

  datatype Option<T> = None | Some(value: T)

  // ---- trimming and splitting -------------------------------------------------------------

  predicate IsSpace(c: char) {
    c in {' ', '\t', '\n', '\r', '\U{000B}', '\U{000C}'}
  }

  function Trim(s: string): string {
    if s == [] then s
    else if IsSpace(s[0]) then Trim(s[1..])
    else if IsSpace(s[|s| - 1]) then Trim(s[..|s| - 1])
    else s
  }

  /** The position of the first separator. */
  function Until(s: string, seps: set<char>): (k: nat)
    ensures k <= |s| && (forall i :: 0 <= i < k ==> s[i] !in seps) && (k < |s| ==> s[k] in seps)
  {
    if s == [] || s[0] in seps then 0 else 1 + Until(s[1..], seps)
  }

  function Skip(s: string, seps: set<char>): (r: string)
    ensures |r| <= |s|
  {
    if s != [] && s[0] in seps then Skip(s[1..], seps) else s
  }

  /** Splitting at runs of separators; a run at either end leaves an empty token there. */
  function SplitAny(s: string, seps: set<char>): seq<string>
    decreases |s|
  {
    var k := Until(s, seps);
    if k == |s| then [s] else [s[..k]] + SplitAny(Skip(s[k + 1..], seps), seps)
  }

  const IN_LIST: set<char> := {',', ' '}
  const IN_MAP: set<char> := {','}
  const IN_ENTRY: set<char> := {'=', ' '}

  function Tokens(line: string): seq<string> {
    SplitAny(Trim(line), IN_LIST)
  }

  /** The first entry of a key is the one that stays; a piece without two tokens is skipped. */
  function Entries(pieces: seq<string>): map<string, string>
    decreases |pieces|
  {
    if pieces == [] then map[] else
      var m, s := Entries(pieces[..|pieces| - 1]), SplitAny(Trim(pieces[|pieces| - 1]), IN_ENTRY);
      if |s| == 2 && s[0] !in m then m[s[0] := s[1]] else m
  }

  /** What a field sets; the unsigned 16 bit option is reserved but has no conversion, so it sets
      nothing. */
  function Parsed(name: string, line: string): Option<Property> {
    if name in STRINGS then Some(Converted(AString, line))
    else if name in INTS then Some(Converted(AnInt, line))
    else if name in SIZES then Some(Converted(ASize, line))
    else if name in BOOLS then Some(Converted(ABool, line))
    else if name in FLOATS then Some(Converted(AFloat, line))
    else if name in LISTS then Some(List(Tokens(line)))
    else if name in UINT16S then None
    else if ',' !in line then Some(Value(line))
    else if '=' !in line then Some(List(Tokens(line)))
    else Some(Table(Entries(SplitAny(Trim(line), IN_MAP))))
  }

  // ---- values survive printing and parsing ------------------------------------------------

  /** A token without separators and blanks. */
  predicate Plain(s: string) {
    forall i :: 0 <= i < |s| ==> s[i] != ',' && s[i] != '=' && !IsSpace(s[i])
  }

  ghost predicate NoSpace(s: string) {
    forall i :: 0 <= i < |s| ==> !IsSpace(s[i])
  }

  ghost predicate Free(s: string, seps: set<char>) {
    forall i :: 0 <= i < |s| ==> s[i] !in seps
  }

  lemma UntilIs(s: string, seps: set<char>, k: nat)
    requires k <= |s| && (forall i :: 0 <= i < k ==> s[i] !in seps) && (k < |s| ==> s[k] in seps)
    ensures Until(s, seps) == k
  {
  }

  lemma SplitFree(s: string, seps: set<char>)
    requires Free(s, seps)
    ensures SplitAny(s, seps) == [s] && Skip(s, seps) == s
  {
    UntilIs(s, seps, |s|);
  }

  lemma SplitHead(a: string, sep: char, rest: string, seps: set<char>)
    requires Free(a, seps) && sep in seps
    ensures SplitAny(a + [sep] + rest, seps) == [a] + SplitAny(Skip(rest, seps), seps)
  {
    var s := a + [sep] + rest;
    UntilIs(s, seps, |a|);
    assert s[..|a|] == a && s[|a| + 1..] == rest;
  }

  /** A list without the empty tokens that have another one behind them. */
  function Kept(v: seq<string>): seq<string>
    requires v != []
  {
    if |v| == 1 then v else if v[0] == "" then Kept(v[1..]) else [v[0]] + Kept(v[1..])
  }

  /** The list that splitting gives back: inner empty tokens are lost. */
  function Squeezed(v: seq<string>): seq<string>
    requires v != []
  {
    if |v| == 1 then v else [v[0]] + Kept(v[1..])
  }

  ghost predicate AllFree(v: seq<string>, seps: set<char>) {
    forall i :: 0 <= i < |v| ==> Free(v[i], seps)
  }

  lemma {:induction false} SkipJoin(v: seq<string>, seps: set<char>)
    requires v != [] && AllFree(v, seps) && ',' in seps
    ensures SplitAny(Skip(Join(v, ","), seps), seps) == Kept(v)
  {
    if |v| == 1 {
      SplitFree(v[0], seps);
    } else {
      SkipJoin(v[1..], seps);
      var rest := Join(v[1..], ",");
      if v[0] == "" {
        assert Join(v, ",") == [','] + rest;
        assert Skip([','] + rest, seps) == Skip(rest, seps);
      } else {
        var s := v[0] + "," + rest;
        assert s[0] == v[0][0];
        assert Skip(s, seps) == s;
        SplitHead(v[0], ',', rest, seps);
      }
    }
  }

  lemma SplitJoined(v: seq<string>, seps: set<char>)
    requires v != [] && AllFree(v, seps) && ',' in seps
    ensures SplitAny(Join(v, ","), seps) == Squeezed(v)
  {
    if |v| == 1 {
      SplitFree(v[0], seps);
    } else {
      SkipJoin(v[1..], seps);
      SplitHead(v[0], ',', Join(v[1..], ","), seps);
    }
  }

  /** No empty token strictly between the first and the last. */
  ghost predicate InnerFilled(v: seq<string>, from: nat) {
    forall i :: from <= i < |v| - 1 ==> v[i] != ""
  }

  lemma {:induction false} KeptIff(v: seq<string>)
    requires v != []
    ensures |Kept(v)| <= |v| && (Kept(v) == v <==> InnerFilled(v, 0))
  {
    if |v| > 1 {
      KeptIff(v[1..]);
      assert v == [v[0]] + v[1..];
      assert InnerFilled(v, 0) <==> v[0] != "" && InnerFilled(v[1..], 0) by {
        if v[0] != "" && InnerFilled(v[1..], 0) {
          forall i | 0 <= i < |v| - 1 ensures v[i] != "" { if i > 0 { assert v[i] == v[1..][i - 1]; } }
        }
      }
      if v[0] == "" { assert |Kept(v)| < |v|; }
    }
  }

  lemma SqueezedIff(v: seq<string>)
    requires v != []
    ensures Squeezed(v) == v <==> InnerFilled(v, 1)
  {
    if |v| > 1 {
      KeptIff(v[1..]);
      assert v == [v[0]] + v[1..];
      assert InnerFilled(v, 1) <==> InnerFilled(v[1..], 0) by {
        if InnerFilled(v[1..], 0) {
          forall i | 1 <= i < |v| - 1 ensures v[i] != "" { assert v[i] == v[1..][i - 1]; }
        }
      }
    }
  }

  lemma TrimNothing(s: string)
    requires NoSpace(s)
    ensures Trim(s) == s
  {
  }

  lemma {:induction false} JoinChars(v: seq<string>, c: char)
    requires c != ','
    ensures c in Join(v, ",") <==> exists i :: 0 <= i < |v| && c in v[i]
  {
    if |v| > 1 {
      JoinChars(v[1..], c);
      var s := v[0] + "," + Join(v[1..], ",");
      assert c in s <==> c in v[0] || c in Join(v[1..], ",");
      if c in v[0] { assert 0 <= 0 < |v| && c in v[0]; }
      if i :| 0 <= i < |v[1..]| && c in v[1..][i] { assert c in v[i + 1]; }
      if i :| 0 <= i < |v| && c in v[i] { if i > 0 { assert c in v[1..][i - 1]; } }
    }
  }

  lemma JoinComma(v: seq<string>)
    requires forall i :: 0 <= i < |v| ==> ',' !in v[i]
    ensures ',' in Join(v, ",") <==> |v| > 1
  {
    if |v| > 1 {
      var s := v[0] + "," + Join(v[1..], ",");
      assert s[|v[0]|] == ',';
    }
  }

  lemma {:induction false} JoinNoSpace(v: seq<string>)
    requires forall i :: 0 <= i < |v| ==> NoSpace(v[i])
    ensures NoSpace(Join(v, ","))
  {
    if |v| > 1 {
      JoinNoSpace(v[1..]);
      assert NoSpace(v[0]) && !IsSpace(',');
    }
  }

  lemma PlainIs(s: string)
    requires Plain(s)
    ensures ',' !in s && '=' !in s && NoSpace(s) && Free(s, IN_LIST)
  {
    assert IsSpace(' ');
  }

  lemma ListReads(v: seq<string>)
    requires |v| >= 2 && forall i :: 0 <= i < |v| ==> Plain(v[i])
    ensures '=' !in Join(v, ",") && Tokens(Join(v, ",")) == Squeezed(v)
  {
    forall i | 0 <= i < |v| ensures '=' !in v[i] && NoSpace(v[i]) && Free(v[i], IN_LIST) { PlainIs(v[i]); }
    JoinChars(v, '=');
    JoinNoSpace(v);
    TrimNothing(Join(v, ","));
    SplitJoined(v, IN_LIST);
  }

  /** A list of plain tokens, printed with commas, is read back as it was if and only if it has
      at least two tokens and none between the first and the last is empty. */
  lemma ListSurvivesIff(name: string, v: seq<string>)
    requires !IsReserved(name) && forall i :: 0 <= i < |v| ==> Plain(v[i])
    ensures Parsed(name, Join(v, ",")) == Some(List(v)) <==> |v| >= 2 && InnerFilled(v, 1)
  {
    forall i | 0 <= i < |v| ensures ',' !in v[i] { PlainIs(v[i]); }
    JoinComma(v);
    if |v| >= 2 {
      ListReads(v);
      SqueezedIff(v);
    }
  }

  // ---- maps -------------------------------------------------------------------------------

  datatype Entry = Entry(key: string, value: string)

  function Piece(e: Entry): string {
    e.key + "=" + e.value
  }

  function Pieces(es: seq<Entry>): seq<string> {
    seq(|es|, i requires 0 <= i < |es| => Piece(es[i]))
  }

  /** The entries as a map; the first one of a key counts. */
  function FirstOf(es: seq<Entry>): map<string, string>
    decreases |es|
  {
    if es == [] then map[] else
      var m, e := FirstOf(es[..|es| - 1]), es[|es| - 1];
      if e.key !in m then m[e.key := e.value] else m
  }

  lemma PiecePlain(e: Entry)
    requires Plain(e.key) && Plain(e.value)
    ensures Piece(e) != "" && Free(Piece(e), IN_MAP) && NoSpace(Piece(e))
  {
    assert !IsSpace('=') && '=' !in IN_MAP;
  }

  lemma PieceSplits(e: Entry)
    requires Plain(e.key) && Plain(e.value)
    ensures Piece(e) != "" && SplitAny(Trim(Piece(e)), IN_ENTRY) == [e.key, e.value] && Free(Piece(e), IN_MAP) &&
        NoSpace(Piece(e))
  {
    PiecePlain(e);
    TrimNothing(Piece(e));
    PlainInEntry(e.key);
    PlainInEntry(e.value);
    SplitHead(e.key, '=', e.value, IN_ENTRY);
    SplitFree(e.value, IN_ENTRY);
  }

  lemma PlainInEntry(s: string)
    requires Plain(s)
    ensures Free(s, IN_ENTRY)
  {
    assert IsSpace(' ');
  }

  lemma {:induction false} EntriesOfPieces(es: seq<Entry>)
    requires forall i :: 0 <= i < |es| ==> Plain(es[i].key) && Plain(es[i].value)
    ensures Entries(Pieces(es)) == FirstOf(es)
    decreases |es|
  {
    if es != [] {
      var front, k := es[..|es| - 1], |es| - 1;
      assert Pieces(es)[..k] == Pieces(front);
      EntriesOfPieces(front);
      PieceSplits(es[k]);
    }
  }

  lemma {:induction false} FirstOfDistinct(es: seq<Entry>, m: map<string, string>)
    requires forall i, j :: 0 <= i < j < |es| ==> es[i].key != es[j].key
    requires forall i :: 0 <= i < |es| ==> es[i].key in m && m[es[i].key] == es[i].value
    ensures forall k :: k in FirstOf(es) <==> exists i :: 0 <= i < |es| && es[i].key == k
    ensures forall k :: k in FirstOf(es) ==> k in m && FirstOf(es)[k] == m[k]
    decreases |es|
  {
    if es != [] {
      var front, last := es[..|es| - 1], es[|es| - 1];
      FirstOfDistinct(front, m);
      forall k ensures k in FirstOf(es) <==> exists i :: 0 <= i < |es| && es[i].key == k {
        if i :| 0 <= i < |es| && es[i].key == k { assert i < |front| ==> front[i].key == k; }
        if i :| 0 <= i < |front| && front[i].key == k { assert es[i].key == k; }
        assert last.key == es[|es| - 1].key;
      }
    }
  }

  /** The entries list a map, each key once. */
  ghost predicate Lists(es: seq<Entry>, m: map<string, string>) {
    && (forall i, j :: 0 <= i < j < |es| ==> es[i].key != es[j].key)
    && (forall i :: 0 <= i < |es| ==> es[i].key in m && m[es[i].key] == es[i].value)
    && (forall k :: k in m ==> exists i :: 0 <= i < |es| && es[i].key == k)
  }

  lemma PiecesOk(es: seq<Entry>)
    requires forall i :: 0 <= i < |es| ==> Plain(es[i].key) && Plain(es[i].value)
    ensures forall i :: 0 <= i < |es| ==>
        ',' !in Pieces(es)[i] && NoSpace(Pieces(es)[i]) && Pieces(es)[i] != "" && '=' in Pieces(es)[i]
    ensures AllFree(Pieces(es), IN_MAP)
  {
    forall i | 0 <= i < |es|
      ensures ',' !in Piece(es[i]) && NoSpace(Piece(es[i])) && Free(Piece(es[i]), IN_MAP) && Piece(es[i]) != "" &&
          '=' in Piece(es[i])
    {
      PieceSplits(es[i]);
      assert Piece(es[i])[|es[i].key|] == '=';
    }
  }

  lemma PiecesSplit(es: seq<Entry>)
    requires es != [] && forall i :: 0 <= i < |es| ==> Plain(es[i].key) && Plain(es[i].value)
    ensures SplitAny(Trim(Join(Pieces(es), ",")), IN_MAP) == Pieces(es)
  {
    PiecesOk(es);
    JoinNoSpace(Pieces(es));
    TrimNothing(Join(Pieces(es), ","));
    SplitJoined(Pieces(es), IN_MAP);
    SqueezedIff(Pieces(es));
  }

  lemma FirstOfLists(es: seq<Entry>, m: map<string, string>)
    requires Lists(es, m)
    ensures FirstOf(es) == m
  {
    FirstOfDistinct(es, m);
  }

  /** A map of plain keys and values, printed in any order, is read back as it was if and only if
      it has at least two entries. */
  lemma MapSurvivesIff(name: string, m: map<string, string>, es: seq<Entry>)
    requires !IsReserved(name) && Lists(es, m) && forall i :: 0 <= i < |es| ==> Plain(es[i].key) && Plain(es[i].value)
    ensures Parsed(name, Join(Pieces(es), ",")) == Some(Table(m)) <==> |es| >= 2
  {
    var line := Join(Pieces(es), ",");
    PiecesOk(es);
    JoinComma(Pieces(es));
    if |es| >= 2 {
      JoinChars(Pieces(es), '=');
      assert '=' in Pieces(es)[0] && '=' in line;
      PiecesSplit(es);
      EntriesOfPieces(es);
      FirstOfLists(es, m);
    }
  }

  // ---- the group of an instance -----------------------------------------------------------

  const PREFIX: string := "parameters"

  function LastHyphen(s: string): (r: Option<nat>)
    ensures r.None? <==> '-' !in s
    ensures r.Some? ==> r.value < |s| && s[r.value] == '-' && forall i :: r.value < i < |s| ==> s[i] != '-'
  {
    if s == [] then None else if s[|s| - 1] == '-' then Some(|s| - 1) else LastHyphen(s[..|s| - 1])
  }

  predicate Digits(s: string) {
    forall i :: 0 <= i < |s| ==> '0' <= s[i] <= '9'
  }

  /** The key without a hyphen and digits at its end; no key if it does not end like that. */
  function GroupKey(key: string): string {
    match LastHyphen(key)
    case None => if Digits(key) then key else ""
    case Some(k) => if Digits(key[k + 1..]) then key[..k] else ""
  }

  function KeyOf(id: string): string {
    PREFIX + [Text.SEP] + id
  }

  lemma NoHyphenBefore(id: string, i: nat)
    requires i <= |PREFIX|
    ensures KeyOf(id)[i] != '-' && KeyOf(id)[0] == 'p'
  {
  }

  lemma GroupParts(id: string, g: string) returns (s: string, d: string)
    requires g != "" && GroupKey(KeyOf(id)) == g
    ensures Digits(d) && id == s + "-" + d && g == KeyOf(s)
  {
    var key, n := KeyOf(id), |PREFIX| + 1;
    NoHyphenBefore(id, 0);
    assert LastHyphen(key).Some?;
    var k := LastHyphen(key).value;
    if k < n { NoHyphenBefore(id, k); }
    s, d := key[n..k], key[k + 1..];
    assert key[n..] == id && key[..n] == PREFIX + [Text.SEP];
    assert key[n..] == s + "-" + d;
    assert key[..k] == key[..n] + s;
  }

  lemma GroupFrom(s: string, d: string)
    requires Digits(d)
    ensures GroupKey(KeyOf(s + "-" + d)) == KeyOf(s)
  {
    var g := KeyOf(s);
    var key := KeyOf(s + "-" + d);
    assert key == g + "-" + d;
    assert key[|g|] == '-' && key[|g| + 1..] == d && key[..|g|] == g;
    assert forall i :: |g| < i < |key| ==> key[i] == d[i - |g| - 1];
    assert '-' in key;
  }

  /** An instance has a group exactly when its id is a name, a hyphen and digits, and the group
      is that name's key, whatever other hyphens the name has. */
  lemma GroupIff(id: string, g: string)
    requires g != ""
    ensures GroupKey(KeyOf(id)) == g <==> exists s, d :: Digits(d) && id == s + "-" + d && g == KeyOf(s)
  {
    if GroupKey(KeyOf(id)) == g { var s, d := GroupParts(id, g); }
    if s, d :| Digits(d) && id == s + "-" + d && g == KeyOf(s) { GroupFrom(s, d); }
  }

  /** All instances of a service share its group key, and other services have others. */
  lemma GroupOfService(s: string, t: string, i: nat, j: nat)
    ensures GroupKey(KeyOf(s + "-" + Text.Dec(i))) == KeyOf(s)
    ensures GroupKey(KeyOf(s + "-" + Text.Dec(i))) == GroupKey(KeyOf(t + "-" + Text.Dec(j))) <==> s == t
  {
    GroupFrom(s, Text.Dec(i));
    GroupFrom(t, Text.Dec(j));
    assert KeyOf(s)[|PREFIX| + 1..] == s && KeyOf(t)[|PREFIX| + 1..] == t;
  }

  // ---- the plugin object ------------------------------------------------------------------

  type Fields = map<string, string>

  /** What a hash sets, field by field. */
  function Properties(h: Fields): map<string, Property> {
    map f | f in h && Parsed(f, h[f]).Some? :: Parsed(f, h[f]).value
  }

  function HashAt(store: map<string, Fields>, key: string): Fields {
    if key in store then store[key] else map[]
  }

  class ParameterConfigPlugin {
    var properties: map<string, Property>
    var fId: string
    var fKey: string
    var fGroupKey: string

    constructor ()
      ensures properties == map[] && fId == "" && fKey == "" && fGroupKey == ""
    {
      properties, fId, fKey, fGroupKey := map[], "", "", "";
    }

    method SetProperty(name: string, p: Property)
      modifies this`properties
      ensures properties == old(properties)[name := p]
    {
      properties := properties[name := p];
    }

    method ToArray(name: string, line: string)
      modifies this`properties
      ensures properties == old(properties)[name := List(Tokens(line))]
    {
      var v := SplitAny(Trim(line), IN_LIST);
      SetProperty(name, List(v));
    }

    method ToMap(name: string, line: string)
      modifies this`properties
      ensures properties == old(properties)[name := Table(Entries(SplitAny(Trim(line), IN_MAP)))]
    {
      var v := SplitAny(Trim(line), IN_MAP);
      var m: map<string, string> := map[];
      for i := 0 to |v|
        invariant m == Entries(v[..i])
      {
        assert v[..i + 1][..i] == v[..i];
        var s := SplitAny(Trim(v[i]), IN_ENTRY);
        if |s| == 2 && s[0] !in m { m := m[s[0] := s[1]]; }
      }
      assert v[..|v|] == v;
      SetProperty(name, Table(m));
    }

    method SetPropertyOfReservedOption(name: string, line: string)
      requires IsReserved(name)
      modifies this`properties
      ensures var p := Parsed(name, line);
              properties == if p.Some? then old(properties)[name := p.value] else old(properties)
    {
      if name in STRINGS {
        SetProperty(name, Converted(AString, line));
      } else if name in INTS {
        SetProperty(name, Converted(AnInt, line));
      } else if name in SIZES {
        SetProperty(name, Converted(ASize, line));
      } else if name in BOOLS {
        SetProperty(name, Converted(ABool, line));
      } else if name in FLOATS {
        SetProperty(name, Converted(AFloat, line));
      } else if name in LISTS {
        ToArray(name, line);
      }
    }

    method Parse(name: string, line: string)
      modifies this`properties
      ensures var p := Parsed(name, line);
              properties == if p.Some? then old(properties)[name := p.value] else old(properties)
    {
      if IsReserved(name) {
        SetPropertyOfReservedOption(name, line);
      } else if ',' !in line {
        SetProperty(name, Value(line));
      } else if '=' !in line {
        ToArray(name, line);
      } else {
        ToMap(name, line);
      }
    }

    /** All fields of a hash, in whatever order they come. */
    method ReadHash(h: Fields)
      modifies this`properties
      ensures properties == old(properties) + Properties(h)
    {
      var rest := h.Keys;
      while rest != {}
        invariant rest <= h.Keys && Layered(old(properties), h, rest, properties)
      {
        var f :| f in rest;
        ghost var before := properties;
        Parse(f, h[f]);
        LayerOne(old(properties), h, rest, before, f, properties);
        rest := rest - {f};
      }
      LayerAll(old(properties), h, properties);
    }

    /** The group's hash, then the instance's: where both have a field the instance's counts,
        and other properties stay. The keys are worked out once. */
    method ReadParameters(store: map<string, Fields>, id: Option<string>)
      modifies this
      ensures if old(fId) == "" && id.None? then
                properties == old(properties) && fId == "" && fKey == old(fKey) && fGroupKey == old(fGroupKey)
              else
                && fId == (if old(fId) == "" then id.value else old(fId))
                && fKey == (if old(fKey) == "" then KeyOf(fId) else old(fKey))
                && fGroupKey == (if old(fGroupKey) == "" then GroupKey(fKey) else old(fGroupKey))
                && properties == old(properties) + Properties(HashAt(store, fGroupKey)) +
                     Properties(HashAt(store, fKey))
    {
      if fId == "" {
        if id.Some? { fId := id.value; } else { return; }
      }
      if fKey == "" { fKey := KeyOf(fId); }
      if fGroupKey == "" { FindGroupKey(); }
      ReadHash(HashAt(store, fGroupKey));
      ReadHash(HashAt(store, fKey));
    }

    method FindGroupKey()
      requires fGroupKey == ""
      modifies this`fGroupKey
      ensures fGroupKey == GroupKey(fKey)
    {
      var lastHyphen := LastHyphen(fKey);
      var idx := if lastHyphen.Some? then fKey[lastHyphen.value + 1..] else fKey;
      var isNumber := true;
      var i := 0;
      while i < |idx|
        invariant i <= |idx| && isNumber && Digits(idx[..i])
      {
        if !('0' <= idx[i] <= '9') {
          assert !Digits(idx);
          isNumber := false;
          break;
        }
        i := i + 1;
      }
      if isNumber {
        assert idx[..|idx|] == idx;
        fGroupKey := if lastHyphen.Some? then fKey[..lastHyphen.value] else fKey;
      }
    }
  }

  /** The properties after some of a hash's fields, all but those of `rest`, have been parsed. */
  ghost predicate Layered(base: map<string, Property>, h: Fields, rest: set<string>, props: map<string, Property>) {
    && (forall f :: f in props <==> f in base || (f in Properties(h) && f !in rest))
    && (forall f :: f in props ==> props[f] == if f in Properties(h) && f !in rest then Properties(h)[f] else base[f])
  }

  lemma LayerOne(base: map<string, Property>, h: Fields, rest: set<string>, before: map<string, Property>, f: string,
      after: map<string, Property>)
    requires Layered(base, h, rest, before) && f in rest && f in h
    requires var p := Parsed(f, h[f]); after == if p.Some? then before[f := p.value] else before
    ensures Layered(base, h, rest - {f}, after)
  {
  }

  lemma LayerAll(base: map<string, Property>, h: Fields, props: map<string, Property>)
    requires Layered(base, h, {}, props)
    ensures props == base + Properties(h)
  {
  }

  /** A field of the instance overrides the group's field, which overrides what was there. */
  lemma InstanceOverridesGroup(base: map<string, Property>, group: Fields, instance: Fields, f: string)
    requires f !in UINT16S
    ensures var p := base + Properties(group) + Properties(instance);
            && (f in p <==> f in base || f in group || f in instance)
            && (f in p ==> Some(p[f]) == if f in instance then Parsed(f, instance[f])
                 else if f in group then Parsed(f, group[f]) else Some(base[f]))
  {
  }
}
