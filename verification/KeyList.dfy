/**
 How a channel's key list is stored as text and extended (model/channel.go GetKeys, and the append
 branch of UpdateChannel in controller/channel.go).
*/
module KeyList {
  import opened GoStrings
  import opened Options

  /** The JSON decoder: the elements of an array, if the text is one. */
  type Parser = string -> Option<seq<string>>

  /**
   Reading the list back: a text that starts with '[' and parses as a JSON array gives its
   elements (`parse` is the JSON decoder), anything else one key per line.
  */
  function GetKeys(text: string, parse: Parser): seq<string> {
    if text == "" then []
    else if IsArray(text, parse) then parse(TrimSpace(text)).value
    else Split(Trim(text, {'\n'}), '\n')
  }

  predicate LooksLikeArray(text: string) {
    var trimmed := TrimSpace(text);
    trimmed != "" && trimmed[0] == '['
  }

  predicate IsArray(text: string, parse: Parser) {
    LooksLikeArray(text) && parse(TrimSpace(text)).Some?
  }

  /** The number of keys UpdateFields counts in a text: like GetKeys, but an empty array counts as one line. */
  function CountKeys(text: string, parse: Parser): nat {
    if text == "" then 0
    else if IsArray(text, parse) && parse(TrimSpace(text)).value != [] then |parse(TrimSpace(text)).value|
    else |Split(Trim(text, {'\n'}), '\n')|
  }

  /** A text looks like an array when the first character behind its leading white space is a '['. */
  lemma LooksLikeArrayIff(text: string)
    ensures LooksLikeArray(text) <==>
      exists i :: 0 <= i < |text| && text[i] == '[' && forall k :: 0 <= k < i ==> text[k] in SPACES
  {
    var i := TrimLeftFrom(text, SPACES);
    var j := TrimRightTo(text[i..], SPACES);
    TrimLeftStarts(text, SPACES);
    assert TrimSpace(text) == text[i..i + j];
    if i < |text| {
      assert text[i..][0] == text[i];
    }
  }

  /** UpdateFields counts the keys that GetKeys gives, exactly unless the text is an empty array. */
  lemma CountMatches(text: string, parse: Parser)
    requires text != ""
    ensures CountKeys(text, parse) == |GetKeys(text, parse)| <==>
      !(LooksLikeArray(text) && parse(TrimSpace(text)) == Some([]))
  {
  }

  /** The lists that come back from the text they are stored as. */
  predicate Storable(keys: seq<string>, parse: Parser) {
    var text := Join(keys, '\n');
    if keys == [] then true
    else if IsArray(text, parse) then parse(TrimSpace(text)).value == keys
    else (forall k :: k in keys ==> '\n' !in k) && keys[0] != "" && keys[|keys| - 1] != ""
  }

  /**
   Every multi-key action stores the keys joined by newlines. They come back as they were exactly
   when the joined text is no array, no key contains a newline and neither the first nor the last
   key is empty, or when it is an array of just these elements. (Keys taken from a pretty-printed
   JSON array do contain newlines, and a blank line typed into the key field becomes an empty key.)
  */
  lemma StoredKeysReadBack(keys: seq<string>, parse: Parser)
    ensures GetKeys(Join(keys, '\n'), parse) == keys <==> Storable(keys, parse)
    ensures Storable(keys, parse) ==> CountKeys(Join(keys, '\n'), parse) == |keys|
  {
    var text := Join(keys, '\n');
    if keys != [] && !IsArray(text, parse) {
      LinesReadBack(keys, parse);
    }
    if keys != [] && IsArray(text, parse) {
      assert text != "";
    }
  }

  lemma LinesReadBack(keys: seq<string>, parse: Parser)
    requires keys != [] && !IsArray(Join(keys, '\n'), parse)
    ensures GetKeys(Join(keys, '\n'), parse) == keys <==> Storable(keys, parse)
    ensures Storable(keys, parse) ==> Join(keys, '\n') != ""
  {
    var text := Join(keys, '\n');
    if Storable(keys, parse) {
      JoinEnds(keys, '\n');
      ReadBack(keys, '\n');
    }
    if GetKeys(text, parse) == keys {
      var trimmed := Trim(text, {'\n'});
      TrimIsTrimmed(text, {'\n'});
      assert Split("", '\n') == [""] && Join([""], '\n') == "";
      if trimmed != "" {
        SplitEnds(trimmed, '\n');
      }
    }
  }

  /** The keys a new multi-key channel is given: empty lines are skipped, the others trimmed. */
  function CleanKeys(lines: seq<string>): seq<string> {
    if lines == [] then []
    else
      var n := |lines| - 1;
      CleanKeys(lines[..n]) + if lines[n] == "" then [] else [TrimSpace(lines[n])]
  }

  /** So a line of white space becomes an empty key. */
  lemma {:induction false} BlankLineBecomesKey(lines: seq<string>)
    ensures "" in CleanKeys(lines) <==> exists i :: 0 <= i < |lines| && lines[i] != "" && TrimSpace(lines[i]) == ""
  {
    if lines != [] {
      var n := |lines| - 1;
      BlankLineBecomesKey(lines[..n]);
      assert forall i :: 0 <= i < n ==> lines[..n][i] == lines[i];
      if i :| 0 <= i < |lines| && lines[i] != "" && TrimSpace(lines[i]) == "" {
        assert i == n || lines[..n][i] == lines[i];
      }
    }
  }

  /** The keys of two lists of lines are those of the first followed by those of the second. */
  lemma {:induction false} CleanKeysInOrder(lines: seq<string>, more: seq<string>)
    ensures CleanKeys(lines + more) == CleanKeys(lines) + CleanKeys(more)
    ensures |lines| == 1 ==> CleanKeys(lines) == if lines[0] == "" then [] else [TrimSpace(lines[0])]
  {
    if more == [] {
      assert lines + more == lines;
    } else {
      var before, last := more[..|more| - 1], more[|more| - 1];
      CleanKeysInOrder(lines, before);
      assert (lines + more)[..|lines + more| - 1] == lines + before && (lines + more)[|lines + more| - 1] == last;
    }
    assert |lines| == 1 ==> lines[..0] == [];
  }

  // ----- Appending keys

  /** The keys an append starts from: a text that starts with '[' and does not parse counts as no keys at all. */
  function ExistingKeys(text: string, parse: Parser): seq<string> {
    if LooksLikeArray(text) then
      if parse(TrimSpace(text)).Some? then parse(TrimSpace(text)).value else []
    else Split(Trim(text, {'\n'}), '\n')
  }

  /**
   Appending starts from the keys the channel works with, exactly unless the stored text looks like
   an array and is none: such a text counts as a key elsewhere, and is lost by an append.
  */
  lemma AppendSeesChannelKeys(text: string, parse: Parser)
    requires text != ""
    ensures ExistingKeys(text, parse) == GetKeys(text, parse) <==> LooksLikeArray(text) ==> parse(TrimSpace(text)).Some?
  {
    if LooksLikeArray(text) && parse(TrimSpace(text)).None? {
      assert |Split(Trim(text, {'\n'}), '\n')| > 0;
    }
  }

  /** The keys to append: trimmed, not blank, new to the channel, each once and in input order. */
  function Fresh(existing: seq<string>, incoming: seq<string>): seq<string> {
    if incoming == [] then []
    else
      var n := |incoming| - 1;
      var before, key := Fresh(existing, incoming[..n]), TrimSpace(incoming[n]);
      if key == "" || key in before || Holds(existing, key) then before else before + [key]
  }

  /** `key` is in the list, up to white space around it. */
  predicate Holds(existing: seq<string>, key: string) {
    exists i :: 0 <= i < |existing| && TrimSpace(existing[i]) == key
  }

  method AppendKeys(existing: seq<string>, incoming: seq<string>) returns (all: seq<string>)
    ensures all == existing + Fresh(existing, incoming)
  {
    var seen: set<string> := {};
    var i := 0;
    while i < |existing|
      invariant 0 <= i <= |existing|
      invariant forall key :: key in seen <==> key != "" && Holds(existing[..i], key)
    {
      var normalized := TrimSpace(existing[i]);
      HoldsNext(existing, i);
      if normalized != "" {
        seen := seen + {normalized};
      }
      i := i + 1;
    }
    assert existing[..i] == existing;
    var deduped: seq<string> := [];
    i := 0;
    while i < |incoming|
      invariant 0 <= i <= |incoming|
      invariant deduped == Fresh(existing, incoming[..i])
      invariant forall key :: key in seen <==> key != "" && (key in deduped || Holds(existing, key))
    {
      var normalized := TrimSpace(incoming[i]);
      assert incoming[..i + 1][..i] == incoming[..i];
      if normalized != "" && normalized !in seen {
        seen := seen + {normalized};
        deduped := deduped + [normalized];
      }
      i := i + 1;
    }
    assert incoming[..i] == incoming;
    all := existing + deduped;
  }

  lemma HoldsNext(existing: seq<string>, i: nat)
    requires i < |existing|
    ensures forall key :: Holds(existing[..i + 1], key) <==> Holds(existing[..i], key) || key == TrimSpace(existing[i])
  {
    forall key
      ensures Holds(existing[..i + 1], key) <==> Holds(existing[..i], key) || key == TrimSpace(existing[i])
    {
      if Holds(existing[..i], key) {
        var k :| 0 <= k < i && TrimSpace(existing[..i][k]) == key;
        assert existing[..i + 1][k] == existing[k];
      }
      if key == TrimSpace(existing[i]) {
        assert existing[..i + 1][i] == existing[i];
      }
    }
  }

  /** What is added to a list: new keys only, each once, and none that is not blank left out. */
  ghost predicate AddedKeys(existing: seq<string>, incoming: seq<string>, added: seq<string>) {
    && (forall k :: k in added ==> k != "" && IsTrimmed(k, SPACES) && Holds(incoming, k) && !Holds(existing, k))
    && (forall i, j :: 0 <= i < j < |added| ==> added[i] != added[j])
    && (forall i :: 0 <= i < |incoming| && TrimSpace(incoming[i]) != "" ==>
          TrimSpace(incoming[i]) in added || Holds(existing, TrimSpace(incoming[i])))
  }

  /** Appending keeps every key at its index and adds just the keys that are new to the channel, in input order: what
      the first lines add comes first. */
  lemma {:induction false} AppendedKeys(existing: seq<string>, incoming: seq<string>)
    ensures AddedKeys(existing, incoming, Fresh(existing, incoming))
    ensures forall m :: 0 <= m <= |incoming| ==> Fresh(existing, incoming[..m]) <= Fresh(existing, incoming)
  {
    FreshStartsWith(existing, incoming);
    if incoming != [] {
      var n := |incoming| - 1;
      var before, key := Fresh(existing, incoming[..n]), TrimSpace(incoming[n]);
      AppendedKeys(existing, incoming[..n]);
      TrimIsTrimmed(incoming[n], SPACES);
      HoldsNext(incoming, n);
      assert incoming[..n + 1] == incoming;
      forall i | 0 <= i < |incoming| && TrimSpace(incoming[i]) != ""
        ensures TrimSpace(incoming[i]) in Fresh(existing, incoming) || Holds(existing, TrimSpace(incoming[i]))
      {
        assert i < n ==> incoming[..n][i] == incoming[i];
      }
    }
  }

  lemma {:induction false} FreshStartsWith(existing: seq<string>, incoming: seq<string>)
    ensures forall m :: 0 <= m <= |incoming| ==> Fresh(existing, incoming[..m]) <= Fresh(existing, incoming)
  {
    assert incoming[..|incoming|] == incoming;
    if incoming != [] {
      var n := |incoming| - 1;
      FreshStartsWith(existing, incoming[..n]);
      assert forall m :: 0 <= m <= n ==> incoming[..n][..m] == incoming[..m];
    }
  }

  /** The append branch on the stored text: the keys it starts from, the fresh ones behind them, joined again. */
  method AppendToText(text: string, incoming: seq<string>, parse: Parser) returns (stored: string)
    ensures stored == Join(ExistingKeys(text, parse) + Fresh(ExistingKeys(text, parse), incoming), '\n')
  {
    var all := AppendKeys(ExistingKeys(text, parse), incoming);
    stored := Join(all, '\n');
  }

  /**
   After an append the channel has its old keys at their indices, with the fresh ones behind them,
   exactly when the whole list is storable; as long as the old text is not one that is lost.
  */
  lemma AppendKeepsChannelKeys(text: string, incoming: seq<string>, parse: Parser)
    requires text != "" && (LooksLikeArray(text) ==> parse(TrimSpace(text)).Some?)
    ensures var old', added := GetKeys(text, parse), Fresh(ExistingKeys(text, parse), incoming);
      GetKeys(Join(ExistingKeys(text, parse) + added, '\n'), parse) == old' + added <==> Storable(old' + added, parse)
  {
    AppendSeesChannelKeys(text, parse);
    StoredKeysReadBack(GetKeys(text, parse) + Fresh(ExistingKeys(text, parse), incoming), parse);
  }
}
