/** The cookie lookup of the page script (`getCookie`, part4/scripts.js). */
module Cookie {
  import opened Basics
  import opened Text

  /** One `; `-separated piece of `document.cookie`, destructured as
      `const [k, v] = c.split("=")`: the text before the first `=` and the
      text between the first and the second `=`, if there is a first. */
  datatype Entry = Entry(key: string, value: Option<string>)

  function ParseEntry(c: string): (e: Entry)
    ensures '=' !in e.key
    ensures e.value.None? <==> '=' !in c
    ensures e.value.None? ==> e.key == c
    ensures e.value.Some? ==> '=' !in e.value.value && e.key + "=" + e.value.value <= c
    ensures e.value.Some? ==> var end := |e.key| + 1 + |e.value.value|;
                              end == |c| || (end < |c| && c[end] == '=')
  {
    var parts := Split(c, "=");
    FreeOfChar(parts[0], '=');
    if |parts| >= 2 then
      FreeOfChar(parts[1], '=');
      JoinStartsWithFirst(parts[1..], "=");
      assert c == parts[0] + "=" + Join(parts[1..], "=");
      assert |parts| > 2 ==> Join(parts[1..], "=") == parts[1] + "=" + Join(parts[2..], "=") by {
        if |parts| > 2 {
          assert parts[1..][1..] == parts[2..];
        }
      }
      assert |parts| > 2 ==> c[|parts[0]| + 1 + |parts[1]|] == '=';
      Entry(parts[0], Some(parts[1]))
    else
      Entry(parts[0], None)
  }

  /** `decodeURIComponent(v)` with decoding taken as the identity; a missing
      `v` is `undefined`, which converts to the text "undefined". */
  function ValueText(e: Entry): string
  {
    match e.value
    case Some(v) => v
    case None => "undefined"
  }

  /** The entries of a `document.cookie` string, in order. */
  function Entries(cookie: string): (es: seq<Entry>)
    ensures |es| == |Split(cookie, "; ")|
    ensures forall i :: 0 <= i < |es| ==> es[i] == ParseEntry(Split(cookie, "; ")[i])
  {
    var pieces := Split(cookie, "; ");
    seq(|pieces|, i requires 0 <= i < |pieces| => ParseEntry(pieces[i]))
  }

  /** The `reduce` in `getCookie`: starting from "", each entry whose key is
      `name` replaces the accumulator, so the last such entry wins. */
  function Lookup(entries: seq<Entry>, name: string): (r: string)
    ensures (forall i :: 0 <= i < |entries| ==> entries[i].key != name) ==> r == ""
    ensures forall i :: 0 <= i < |entries| && entries[i].key == name
                        && (forall j :: i < j < |entries| ==> entries[j].key != name)
                        ==> r == ValueText(entries[i])
  {
    if |entries| == 0 then ""
    else
      var init := entries[..|entries| - 1];
      var acc := Lookup(init, name);
      var last := entries[|entries| - 1];
      assert forall i :: 0 <= i < |init| ==> init[i] == entries[i];
      if last.key == name then ValueText(last) else acc
  }

  /** `getCookie(name)`: the value of the last entry keyed `name`, or "" when
      there is none. */
  function GetCookie(cookie: string, name: string): (r: string)
    ensures var es := Entries(cookie);
            (forall i :: 0 <= i < |es| ==> es[i].key != name) ==> r == ""
    ensures var es := Entries(cookie);
            forall i :: 0 <= i < |es| && es[i].key == name
                        && (forall j :: i < j < |es| ==> es[j].key != name)
                        ==> r == ValueText(es[i])
  {
    Lookup(Entries(cookie), name)
  }

  /** `name=value` with no further `=` parses back into its two halves. */
  lemma ParseEntryOfPair(name: string, value: string)
    requires '=' !in name && '=' !in value
    ensures ParseEntry(name + "=" + value) == Entry(name, Some(value))
  {
    var c := name + "=" + value;
    var e := ParseEntry(c);
    assert c[|name|] == '=';
    assert forall j :: 0 <= j < |name| ==> c[j] == name[j];
    assert forall j :: |name| < j < |c| ==> c[j] == value[j - |name| - 1];
    var k := |e.key|;
    var v := e.value.value;
    var pre := e.key + "=" + v;
    assert pre == c[..|pre|];
    assert c[k] == pre[k] == '=';
    assert forall j :: 0 <= j < k ==> c[j] == e.key[j] && e.key[j] != '=';
    assert k == |name|;
    assert e.key == name;
    assert v == c[k + 1..k + 1 + |v|];
    assert v == value;
  }

  /** The `document.cookie` text for a list of `name=value` pairs. */
  function CookieText(pairs: seq<(string, string)>): string
    requires |pairs| >= 1
  {
    Join(seq(|pairs|, i requires 0 <= i < |pairs| => pairs[i].0 + "=" + pairs[i].1), "; ")
  }

  /** Names and values without `=` or `;`. */
  predicate PlainPairs(pairs: seq<(string, string)>)
  {
    forall i :: 0 <= i < |pairs| ==>
      '=' !in pairs[i].0 && '=' !in pairs[i].1 && ';' !in pairs[i].0 && ';' !in pairs[i].1
  }

  /** A cookie string written from plain pairs parses back into exactly
      those pairs, in order. */
  lemma EntriesOfPairs(pairs: seq<(string, string)>)
    requires |pairs| >= 1 && PlainPairs(pairs)
    ensures Entries(CookieText(pairs)) == seq(|pairs|, i requires 0 <= i < |pairs| => Entry(pairs[i].0, Some(pairs[i].1)))
  {
    var texts := seq(|pairs|, i requires 0 <= i < |pairs| => pairs[i].0 + "=" + pairs[i].1);
    forall i | 0 <= i < |texts| ensures ';' !in texts[i] {
      assert forall k :: 0 <= k < |texts[i]| ==>
        texts[i][k] in pairs[i].0 || texts[i][k] == '=' || texts[i][k] in pairs[i].1;
    }
    SplitOfJoin(texts, "; ");
    forall i | 0 <= i < |pairs| ensures ParseEntry(texts[i]) == Entry(pairs[i].0, Some(pairs[i].1)) {
      ParseEntryOfPair(pairs[i].0, pairs[i].1);
    }
  }

  /** Reading a name back from such a cookie string gives the value of its
      last pair, and "" when no pair carries the name. */
  lemma CookieReadsBack(pairs: seq<(string, string)>, name: string)
    requires |pairs| >= 1 && PlainPairs(pairs)
    ensures (forall i :: 0 <= i < |pairs| ==> pairs[i].0 != name) ==> GetCookie(CookieText(pairs), name) == ""
    ensures forall i :: 0 <= i < |pairs| && pairs[i].0 == name
                        && (forall j :: i < j < |pairs| ==> pairs[j].0 != name)
                        ==> GetCookie(CookieText(pairs), name) == pairs[i].1
  {
    var text := CookieText(pairs);
    var es := Entries(text);
    EntriesOfPairs(pairs);
    assert |es| == |pairs|;
    assert forall i :: 0 <= i < |es| ==> es[i].key == pairs[i].0 && ValueText(es[i]) == pairs[i].1;
    forall i | 0 <= i < |pairs| && pairs[i].0 == name && (forall j :: i < j < |pairs| ==> pairs[j].0 != name)
      ensures GetCookie(text, name) == pairs[i].1
    {
      assert forall j :: i < j < |es| ==> es[j].key != name;
    }
  }

  /** A cookie string holding exactly one entry reads back its value. */
  lemma SingleEntryReadsBack(name: string, value: string)
    requires '=' !in name && '=' !in value && ';' !in name && ';' !in value
    ensures GetCookie(name + "=" + value, name) == value
  {
    var c := name + "=" + value;
    assert Free(c, "; ") by {
      forall k | 0 <= k <= |c| - 2 ensures !OccursAt(c, "; ", k) {
        assert c[k] in name || c[k] == '=' || c[k] in value;
      }
    }
    SplitOfFree(c, "; ");
    ParseEntryOfPair(name, value);
    assert Entries(c) == [Entry(name, Some(value))];
  }
}
