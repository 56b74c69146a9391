/** The client helpers of Utils.js: the checkbox list built from the header row, the
    cookie reader used for the CSRF token, and switching between the analysis containers. */
module Utils {
  import opened Common
  import opened JsString
  import opened Grid
  import opened Selection

  /** One checkbox of the variable list: `data-index` is the header's column, `data-variable`
      the trimmed header, and the visible text is " " followed by the untrimmed header. */
  datatype VariableEntry = VariableEntry(index: nat, variable: string, text: string)

  /** The message of the TypeError thrown by `header?.trim()` on a header that is neither
      a string nor null/undefined. */
  const TrimTypeError: string := "header.trim is not a function"

  /** Whether `header?.trim()` is truthy for a string header. */
  predicate Listed(h: Cell) {
    h.Str? && Trim(h.s) != ""
  }

  /** The entry for the header in column `i`. */
  function EntryAt(headers: Row, i: nat): VariableEntry
    requires i < |headers| && headers[i].Str?
  {
    VariableEntry(i, Trim(headers[i].s), " " + headers[i].s)
  }

  /** `e` is the entry of a listed header before column `upTo`. */
  predicate ListedEntry(e: VariableEntry, headers: Row, upTo: nat) {
    e.index < upTo && e.index < |headers| && Listed(headers[e.index]) && e == EntryAt(headers, e.index)
  }

  /** The columns that entries of `list` stand for. */
  function Columns(list: seq<VariableEntry>): set<nat> {
    if list == [] then {} else Columns(list[..|list| - 1]) + {list[|list| - 1].index}
  }

  /** The entries made for the first `n` headers, when none of them is a number. */
  function Entries(headers: Row, n: nat): seq<VariableEntry>
    requires n <= |headers|
  {
    if n == 0 then []
    else Entries(headers, n - 1) + (if Listed(headers[n - 1]) then [EntryAt(headers, n - 1)] else [])
  }

  /** The list `createVariableList` builds, or the TypeError its `trim` call throws. */
  function VariableList(headers: Row): Result<seq<VariableEntry>, string> {
    if exists i | 0 <= i < |headers| :: headers[i].Num? then Failure(TrimTypeError)
    else Success(Entries(headers, |headers|))
  }

  /** `createVariableList(headers, onChange)`: the `forEach` over the headers. */
  method CreateVariableList(headers: Row) returns (r: Result<seq<VariableEntry>, string>)
    ensures r == VariableList(headers)
  {
    var list: seq<VariableEntry> := [];
    var i := 0;
    while i < |headers|
      invariant 0 <= i <= |headers|
      invariant forall j | 0 <= j < i :: !headers[j].Num?
      invariant list == Entries(headers, i)
    {
      var header := headers[i];
      if header.Num? {
        return Failure(TrimTypeError);
      }
      if header.Str? && Trim(header.s) != "" {
        list := list + [VariableEntry(i, Trim(header.s), " " + header.s)];
      }
      i := i + 1;
    }
    return Success(list);
  }

  /** The columns whose header is listed, among the first `n`. */
  function ListedColumns(headers: Row, n: nat): (cols: set<nat>)
    requires n <= |headers|
    ensures forall j: nat :: j in cols <==> j < n && Listed(headers[j])
  {
    if n == 0 then {}
    else ListedColumns(headers, n - 1) + (if Listed(headers[n - 1]) then {n - 1} else {})
  }

  /** The list has one entry per header whose trimmed value is non-empty, made from that
      header, in strictly increasing column order; null, undefined, "" and white-space
      headers give nothing; a numeric header makes `trim` throw, so no list is produced. */
  lemma VariableListSpec(headers: Row)
    ensures VariableList(headers).Failure? <==> exists i | 0 <= i < |headers| :: headers[i].Num?
    ensures VariableList(headers).Success? ==>
              var list := VariableList(headers).value;
              (forall k | 0 <= k < |list| :: ListedEntry(list[k], headers, |headers|)) &&
              (forall k | 0 < k < |list| :: list[k - 1].index < list[k].index) &&
              Columns(list) == ListedColumns(headers, |headers|)
  {
    EntriesListed(headers, |headers|);
    EntriesIncreasing(headers, |headers|);
    EntriesColumns(headers, |headers|);
  }

  lemma {:induction false} EntriesListed(headers: Row, n: nat)
    requires n <= |headers|
    ensures forall k | 0 <= k < |Entries(headers, n)| :: ListedEntry(Entries(headers, n)[k], headers, n)
  {
    if n > 0 {
      EntriesListed(headers, n - 1);
    }
  }

  lemma {:induction false} EntriesIncreasing(headers: Row, n: nat)
    requires n <= |headers|
    ensures forall k | 0 < k < |Entries(headers, n)| ::
      Entries(headers, n)[k - 1].index < Entries(headers, n)[k].index
  {
    if n > 0 {
      EntriesIncreasing(headers, n - 1);
      EntriesListed(headers, n - 1);
    }
  }

  lemma {:induction false} EntriesColumns(headers: Row, n: nat)
    requires n <= |headers|
    ensures Columns(Entries(headers, n)) == ListedColumns(headers, n)
  {
    if n > 0 {
      EntriesColumns(headers, n - 1);
      var prev := Entries(headers, n - 1);
      if Listed(headers[n - 1]) {
        assert Entries(headers, n) == prev + [EntryAt(headers, n - 1)];
        AppendColumns(prev, EntryAt(headers, n - 1));
      } else {
        assert Entries(headers, n) == prev;
      }
    }
  }

  lemma AppendColumns(list: seq<VariableEntry>, e: VariableEntry)
    ensures Columns(list + [e]) == Columns(list) + {e.index}
  {
    assert (list + [e])[..|list|] == list;
  }

  /** A padded header is listed under its trimmed name, but `headers.indexOf(variable)`
      compares with the untrimmed row: unless another column is headed by exactly the
      trimmed name, the variable is never found, so checking its box sends nothing. */
  lemma PaddedHeaderNotSent(headers: Row, i: nat, names: seq<string>, sel: map<string, bool>)
    requires i < |headers| && Listed(headers[i]) && Trim(headers[i].s) != headers[i].s
    requires forall j | 0 <= j < |headers| && j != i :: headers[j] != Str(Trim(headers[i].s))
    ensures IndexOf(headers, EntryAt(headers, i).variable) == -1
    ensures EntryAt(headers, i).variable !in SentVariables(names, sel, headers)
  {
    var v := EntryAt(headers, i).variable;
    assert headers[i] != Str(v);
    assert Str(v) !in headers by {
      forall j | 0 <= j < |headers| ensures headers[j] != Str(v) {}
    }
  }

  /** Position of the first entry of `entries` starting with `prefix`, or `|entries|`. */
  function FirstStarting(entries: seq<string>, prefix: string): (i: nat)
    ensures i <= |entries|
    ensures i < |entries| ==> StartsWith(entries[i], prefix)
    ensures forall j | 0 <= j < i :: !StartsWith(entries[j], prefix)
  {
    if entries == [] then 0
    else if StartsWith(entries[0], prefix) then 0
    else 1 + FirstStarting(entries[1..], prefix)
  }

  /** `document.cookie.split(";").map(c => c.trim())`. */
  function CookieEntries(cookie: string): (entries: seq<string>)
    ensures |entries| == |Split(cookie, ';')|
    ensures forall k | 0 <= k < |entries| :: entries[k] == Trim(Split(cookie, ';')[k])
  {
    var parts := Split(cookie, ';');
    seq(|parts|, k requires 0 <= k < |parts| => Trim(parts[k]))
  }

  /** `getCookie(name)` over the Cookie header string `cookie` (the `name=value; …` form of
      section 4.2.1 of RFC 6265). `decode` is `decodeURIComponent`, the percent-decoding of
      section 2.1 of RFC 3986, taken as given. The value of the first entry starting with
      `name=` is returned; an empty cookie string or no such entry gives null. */
  method GetCookie(cookie: string, name: string, decode: string -> string)
    returns (value: Option<string>)
    ensures cookie == "" ==> value == None
    ensures cookie != "" ==> value == CookieValue(CookieEntries(cookie), name, decode)
  {
    value := None;
    if cookie != "" {
      var cookies := CookieEntries(cookie);
      var i := 0;
      while i < |cookies|
        invariant 0 <= i <= |cookies|
        invariant forall j | 0 <= j < i :: !StartsWith(cookies[j], name + "=")
      {
        if StartsWith(cookies[i], name + "=") {
          FirstStartingAt(cookies, name + "=", i);
          value := Some(decode(cookies[i][|name| + 1..]));
          return;
        }
        i := i + 1;
      }
      FirstStartingAt(cookies, name + "=", i);
    }
  }

  /** The decoded remainder of the first entry starting with `name=`, if there is one. */
  function CookieValue(entries: seq<string>, name: string, decode: string -> string): Option<string> {
    var i := FirstStarting(entries, name + "=");
    if i < |entries| then Some(decode(entries[i][|name| + 1..])) else None
  }

  lemma {:induction false} FirstStartingAt(entries: seq<string>, prefix: string, i: nat)
    requires i <= |entries|
    requires i < |entries| ==> StartsWith(entries[i], prefix)
    requires forall j | 0 <= j < i :: !StartsWith(entries[j], prefix)
    ensures FirstStarting(entries, prefix) == i
  {
    if i > 0 {
      FirstStartingAt(entries[1..], prefix, i - 1);
    }
  }

  /** An entry whose name merely begins with `name` (as "csrftokenX=…" for "csrftoken")
      does not match. */
  lemma LongerNameDoesNotMatch(entry: string, name: string, c: char)
    requires c != '=' && StartsWith(entry, name + [c])
    ensures !StartsWith(entry, name + "=")
  {
    assert entry[|name|] == (name + [c])[|name|];
  }

  /** Of two entries for the same name, the first wins. */
  lemma FirstEntryWins(entries: seq<string>, prefix: string, i: nat, j: nat)
    requires i < j < |entries|
    requires StartsWith(entries[i], prefix) && StartsWith(entries[j], prefix)
    ensures FirstStarting(entries, prefix) <= i
  {
  }

  /** The page's elements that carry the `container` class, and what is displayed. */
  class Page {
    /** Ids of the `.container` elements, in document order. */
    const containers: seq<string>
    /** Ids of all elements of the page. */
    const elements: set<string>
    /** Ids of the elements currently displayed. */
    var shown: set<string>

    constructor (containers: seq<string>, elements: set<string>, shown: set<string>)
      ensures this.containers == containers && this.elements == elements && this.shown == shown
    {
      this.containers := containers;
      this.elements := elements;
      this.shown := shown;
    }

    /** `toggleContainer(id)`: every container is hidden, then the element with that id,
        if there is one, is shown. */
    method ToggleContainer(id: string)
      modifies this
      ensures shown == (old(shown) - set c | c in containers) + (if id in elements then {id} else {})
    {
      var i := 0;
      while i < |containers|
        invariant 0 <= i <= |containers|
        invariant shown == old(shown) - set c | c in containers[..i]
      {
        assert containers[..i + 1] == containers[..i] + [containers[i]];
        shown := shown - {containers[i]};
        i := i + 1;
      }
      assert containers[..i] == containers;
      if id in elements {
        shown := shown + {id};
      }
    }
  }

  /** After switching to a container, it is the only container displayed; with an unknown
      id no container is displayed. */
  lemma ToggleShowsOnlyOne(before: set<string>, containers: seq<string>, elements: set<string>,
                           id: string, after: set<string>)
    requires after == (before - set c | c in containers) + (if id in elements then {id} else {})
    ensures forall c | c in containers :: c in after <==> c == id && id in elements
  {
  }
}
