/**
 Merging the ACL rule tokens of all the groups of a user: the loops at the end of
 search_groups_rules in src/vkldap/connection.rs, and the default rules of src/configs.rs.

 Which characters count as white space is a parameter.
 */
module GroupRules {
  import opened Wrappers

  predicate NoSpace(word: string, isSpace: char -> bool) {
    forall i :: 0 <= i < |word| ==> !isSpace(word[i])
  }

  predicate IsWord(word: string, isSpace: char -> bool) {
    word != [] && NoSpace(word, isSpace)
  }

  // str::split_whitespace: the maximal runs of other characters.
  function Words(text: string, isSpace: char -> bool): (words: seq<string>)
    ensures forall k :: 0 <= k < |words| ==> IsWord(words[k], isSpace)
    ensures text != [] && !isSpace(text[0]) ==> words != []
  {
    if text == [] then []
    else
      var rest := Words(text[1..], isSpace);
      if isSpace(text[0]) then rest
      else if |text| > 1 && !isSpace(text[1]) then [[text[0]] + rest[0]] + rest[1..]
      else [[text[0]]] + rest
  }

  // str::trim
  function TrimStart(text: string, isSpace: char -> bool): string {
    if text != [] && isSpace(text[0]) then TrimStart(text[1..], isSpace) else text
  }

  function TrimEnd(text: string, isSpace: char -> bool): string {
    if text != [] && isSpace(text[|text| - 1]) then TrimEnd(text[..|text| - 1], isSpace) else text
  }

  function Trim(text: string, isSpace: char -> bool): string {
    TrimEnd(TrimStart(text, isSpace), isSpace)
  }

  // An entry has values for the rules attribute, or lacks the attribute.
  type Entry = Option<seq<string>>

  function ValueTokens(values: seq<string>, isSpace: char -> bool): seq<string> {
    if values == [] then []
    else
      var last := |values| - 1;
      ValueTokens(values[..last], isSpace) + Words(values[last], isSpace)
  }

  function WordsOf(entry: Entry, isSpace: char -> bool): seq<string> {
    match entry
    case None => []
    case Some(values) => ValueTokens(values, isSpace)
  }

  function EntryTokens(entries: seq<Entry>, isSpace: char -> bool): seq<string> {
    if entries == [] then []
    else
      var last := |entries| - 1;
      EntryTokens(entries[..last], isSpace) + WordsOf(entries[last], isSpace)
  }

  // The first occurrences.
  function Dedup(tokens: seq<string>): seq<string> {
    if tokens == [] then []
    else
      var last := |tokens| - 1;
      var earlier := Dedup(tokens[..last]);
      if tokens[last] in earlier then earlier else earlier + [tokens[last]]
  }

  function FirstIndex(tokens: seq<string>, token: string): (i: nat)
    requires token in tokens
    ensures i < |tokens| && tokens[i] == token
    ensures forall j :: 0 <= j < i ==> tokens[j] != token
  {
    if tokens[0] == token then 0 else 1 + FirstIndex(tokens[1..], token)
  }

  // No duplicates, the same tokens, in the order of their first occurrences.
  ghost predicate FirstOccurrences(rules: seq<string>, tokens: seq<string>) {
    && (forall token :: token in rules <==> token in tokens)
    && (forall i, j :: 0 <= i < j < |rules| ==> rules[i] != rules[j])
    && (forall i, j :: 0 <= i < j < |rules| ==>
          rules[i] in tokens && rules[j] in tokens && FirstIndex(tokens, rules[i]) < FirstIndex(tokens, rules[j]))
  }

  lemma {:induction false} FirstIndexInLonger(tokens: seq<string>, more: string, token: string)
    requires token in tokens
    ensures FirstIndex(tokens + [more], token) == FirstIndex(tokens, token)
  {
    if tokens[0] != token {
      assert (tokens + [more])[1..] == tokens[1..] + [more];
      FirstIndexInLonger(tokens[1..], more, token);
    }
  }

  lemma {:induction false} FirstIndexOfNew(tokens: seq<string>, more: string)
    requires more !in tokens
    ensures FirstIndex(tokens + [more], more) == |tokens|
  {
    if tokens != [] {
      assert (tokens + [more])[1..] == tokens[1..] + [more];
      FirstIndexOfNew(tokens[1..], more);
    }
  }

  lemma {:induction false} FirstOccurrencesOfOneMore(rules: seq<string>, tokens: seq<string>, more: string)
    requires FirstOccurrences(rules, tokens)
    ensures FirstOccurrences(if more in rules then rules else rules + [more], tokens + [more])
  {
    var rules' := if more in rules then rules else rules + [more];
    forall i, j | 0 <= i < j < |rules'|
      ensures rules'[i] in tokens + [more] && rules'[j] in tokens + [more]
      ensures FirstIndex(tokens + [more], rules'[i]) < FirstIndex(tokens + [more], rules'[j])
    {
      assert rules[i] in rules;
      FirstIndexInLonger(tokens, more, rules[i]);
      if j < |rules| {
        assert rules[j] in rules;
        FirstIndexInLonger(tokens, more, rules[j]);
      } else {
        FirstIndexOfNew(tokens, more);
      }
    }
  }

  lemma {:induction false} DedupMeaning(tokens: seq<string>)
    ensures FirstOccurrences(Dedup(tokens), tokens)
  {
    if tokens != [] {
      var last := |tokens| - 1;
      var earlier, more := tokens[..last], tokens[last];
      assert tokens == earlier + [more];
      DedupMeaning(earlier);
      FirstOccurrencesOfOneMore(Dedup(earlier), earlier, more);
    }
  }

  lemma TrimLeavesWords(word: string, isSpace: char -> bool)
    requires IsWord(word, isSpace)
    ensures Trim(word, isSpace) == word
  {
  }

  // What the loops keep: the rules so far are those of the tokens so far, and `seen` is their set.
  ghost predicate Merged(rules: seq<string>, seen: set<string>, tokens: seq<string>) {
    rules == Dedup(tokens) && forall token :: token in seen <==> token in rules
  }

  lemma MergedOneMore(rules: seq<string>, seen: set<string>, tokens: seq<string>, more: string)
    requires Merged(rules, seen, tokens)
    ensures if more in seen then Merged(rules, seen, tokens + [more])
            else Merged(rules + [more], seen + {more}, tokens + [more])
  {
  }

  // The innermost loop: the tokens of one value.
  method MergeValue(value: string, isSpace: char -> bool, soFar: seq<string>, seenSoFar: set<string>,
                    ghost tokens: seq<string>)
    returns (rules: seq<string>, seen: set<string>)
    requires Merged(soFar, seenSoFar, tokens)
    ensures Merged(rules, seen, tokens + Words(value, isSpace))
  {
    rules, seen := soFar, seenSoFar;
    var words := Words(value, isSpace);
    assert tokens + words[..0] == tokens;
    for k := 0 to |words|
      invariant Merged(rules, seen, tokens + words[..k])
    {
      var token := Trim(words[k], isSpace);
      TrimLeavesWords(words[k], isSpace);
      MergedOneMore(rules, seen, tokens + words[..k], token);
      assert tokens + words[..k + 1] == (tokens + words[..k]) + [token];
      if token != [] && token !in seen {
        seen := seen + {token};
        rules := rules + [token];
      }
    }
    assert words[..|words|] == words;
  }

  lemma Associative<T>(a: seq<T>, b: seq<T>, c: seq<T>)
    ensures a + (b + c) == (a + b) + c
  {
  }

  lemma ValueTokensOneMore(values: seq<string>, value: string, isSpace: char -> bool)
    ensures ValueTokens(values + [value], isSpace) == ValueTokens(values, isSpace) + Words(value, isSpace)
  {
    assert (values + [value])[..|values|] == values;
  }

  // The middle loop: the values of one entry.
  method MergeEntry(values: seq<string>, isSpace: char -> bool, soFar: seq<string>, seenSoFar: set<string>,
                    ghost tokens: seq<string>)
    returns (rules: seq<string>, seen: set<string>)
    requires Merged(soFar, seenSoFar, tokens)
    ensures Merged(rules, seen, tokens + ValueTokens(values, isSpace))
  {
    rules, seen := soFar, seenSoFar;
    assert tokens + ValueTokens(values[..0], isSpace) == tokens;
    for j := 0 to |values|
      invariant Merged(rules, seen, tokens + ValueTokens(values[..j], isSpace))
    {
      rules, seen := MergeValue(values[j], isSpace, rules, seen, tokens + ValueTokens(values[..j], isSpace));
      assert values[..j + 1] == values[..j] + [values[j]];
      ValueTokensOneMore(values[..j], values[j], isSpace);
      Associative(tokens, ValueTokens(values[..j], isSpace), Words(values[j], isSpace));
    }
    assert values[..|values|] == values;
  }

  method MergeGroupRules(entries: seq<Entry>, isSpace: char -> bool) returns (rules: seq<string>)
    ensures rules == Dedup(EntryTokens(entries, isSpace))
    ensures forall word :: word in rules <==> Listed(entries, word, isSpace)
  {
    rules := [];
    var seen: set<string> := {};
    for i := 0 to |entries|
      invariant Merged(rules, seen, EntryTokens(entries[..i], isSpace))
    {
      assert entries[..i + 1][..i] == entries[..i];
      assert EntryTokens(entries[..i], isSpace) + [] == EntryTokens(entries[..i], isSpace);
      if entries[i].Some? {
        rules, seen := MergeEntry(entries[i].value, isSpace, rules, seen, EntryTokens(entries[..i], isSpace));
      }
    }
    assert entries[..|entries|] == entries;
    DedupListed(entries, isSpace);
  }

  // ---- The tokens of all entries

  // Some value of some entry has the word.
  ghost predicate Listed(entries: seq<Entry>, word: string, isSpace: char -> bool) {
    exists i :: 0 <= i < |entries| && entries[i].Some? && ListedIn(entries[i].value, word, isSpace)
  }

  ghost predicate ListedIn(values: seq<string>, word: string, isSpace: char -> bool) {
    exists k :: 0 <= k < |values| && word in Words(values[k], isSpace)
  }

  lemma {:induction false} ValueTokensListed(values: seq<string>, word: string, isSpace: char -> bool)
    ensures word in ValueTokens(values, isSpace) <==> ListedIn(values, word, isSpace)
  {
    if values != [] {
      var last := |values| - 1;
      var before := values[..last];
      ValueTokensListed(before, word, isSpace);
      assert forall k :: 0 <= k < last ==> before[k] == values[k];
      if ListedIn(values, word, isSpace) && word !in Words(values[last], isSpace) {
        var k :| 0 <= k < |values| && word in Words(values[k], isSpace);
        assert word in Words(before[k], isSpace);
      }
      if ListedIn(before, word, isSpace) {
        var k :| 0 <= k < |before| && word in Words(before[k], isSpace);
        assert word in Words(values[k], isSpace);
      }
    }
  }

  predicate ListedAt(entry: Entry, word: string, isSpace: char -> bool) {
    word in WordsOf(entry, isSpace)
  }

  ghost predicate ListedSomewhere(entries: seq<Entry>, word: string, isSpace: char -> bool) {
    exists i :: 0 <= i < |entries| && ListedAt(entries[i], word, isSpace)
  }

  lemma ListedInOneMore(entries: seq<Entry>, entry: Entry, word: string, isSpace: char -> bool)
    ensures ListedSomewhere(entries + [entry], word, isSpace)
       <==> ListedSomewhere(entries, word, isSpace) || ListedAt(entry, word, isSpace)
  {
    var all := entries + [entry];
    assert all[|entries|] == entry;
    assert forall i :: 0 <= i < |entries| ==> all[i] == entries[i];
  }

  lemma {:induction false} EntryTokensAt(entries: seq<Entry>, word: string, isSpace: char -> bool)
    ensures word in EntryTokens(entries, isSpace) <==> ListedSomewhere(entries, word, isSpace)
  {
    if entries != [] {
      var before, entry := entries[..|entries| - 1], entries[|entries| - 1];
      EntryTokensAt(before, word, isSpace);
      assert entries == before + [entry];
      EntryTokensOneMore(before, entry, isSpace);
      ListedInOneMore(before, entry, word, isSpace);
    }
  }

  lemma EntryTokensListed(entries: seq<Entry>, word: string, isSpace: char -> bool)
    ensures word in EntryTokens(entries, isSpace) <==> Listed(entries, word, isSpace)
  {
    EntryTokensAt(entries, word, isSpace);
    forall i | 0 <= i < |entries|
      ensures ListedAt(entries[i], word, isSpace) <==> entries[i].Some? && ListedIn(entries[i].value, word, isSpace)
    {
      if entries[i].Some? {
        ValueTokensListed(entries[i].value, word, isSpace);
      }
    }
  }

  // They follow one another entry by entry, value by value and word by word.
  lemma {:induction false} ValueTokensConcat(a: seq<string>, b: seq<string>, isSpace: char -> bool)
    ensures ValueTokens(a + b, isSpace) == ValueTokens(a, isSpace) + ValueTokens(b, isSpace)
    decreases |b|
  {
    if b == [] {
      assert a + b == a;
    } else {
      var before, value := b[..|b| - 1], b[|b| - 1];
      ValueTokensConcat(a, before, isSpace);
      ValueTokensOneMore(before, value, isSpace);
      ValueTokensOneMore(a + before, value, isSpace);
      assert b == before + [value];
      Associative(a, before, [value]);
      Associative(ValueTokens(a, isSpace), ValueTokens(before, isSpace), Words(value, isSpace));
    }
  }

  lemma TokensOfOneValue(value: string, isSpace: char -> bool)
    ensures ValueTokens([value], isSpace) == Words(value, isSpace)
  {
    assert [value][..0] == [];
  }

  lemma {:induction false} EntryTokensConcat(a: seq<Entry>, b: seq<Entry>, isSpace: char -> bool)
    ensures EntryTokens(a + b, isSpace) == EntryTokens(a, isSpace) + EntryTokens(b, isSpace)
    decreases |b|
  {
    if b == [] {
      assert a + b == a;
    } else {
      var before, entry := b[..|b| - 1], b[|b| - 1];
      EntryTokensConcat(a, before, isSpace);
      ConcatOneMore(a, before, entry, isSpace);
      assert b == before + [entry];
    }
  }

  lemma ConcatOneMore(a: seq<Entry>, b: seq<Entry>, entry: Entry, isSpace: char -> bool)
    requires EntryTokens(a + b, isSpace) == EntryTokens(a, isSpace) + EntryTokens(b, isSpace)
    ensures EntryTokens(a + (b + [entry]), isSpace) == EntryTokens(a, isSpace) + EntryTokens(b + [entry], isSpace)
  {
    EntryTokensOneMore(b, entry, isSpace);
    EntryTokensOneMore(a + b, entry, isSpace);
    Associative(a, b, [entry]);
    Associative(EntryTokens(a, isSpace), EntryTokens(b, isSpace), WordsOf(entry, isSpace));
  }

  lemma EntryTokensOneMore(entries: seq<Entry>, entry: Entry, isSpace: char -> bool)
    ensures EntryTokens(entries + [entry], isSpace) == EntryTokens(entries, isSpace) + WordsOf(entry, isSpace)
  {
    assert (entries + [entry])[..|entries|] == entries;
  }

  lemma TokensOfOneEntry(values: seq<string>, isSpace: char -> bool)
    ensures EntryTokens([None], isSpace) == [] && EntryTokens([Some(values)], isSpace) == ValueTokens(values, isSpace)
    ensures EntryTokens([], isSpace) == [] && ValueTokens([], isSpace) == []
  {
    var none: seq<Entry> := [None];
    assert none[..0] == [] && [Some(values)][..0] == [];
  }

  lemma DedupListed(entries: seq<Entry>, isSpace: char -> bool)
    ensures forall word :: word in Dedup(EntryTokens(entries, isSpace)) <==> Listed(entries, word, isSpace)
  {
    DedupMeaning(EntryTokens(entries, isSpace));
    forall word ensures word in Dedup(EntryTokens(entries, isSpace)) <==> Listed(entries, word, isSpace) {
      EntryTokensListed(entries, word, isSpace);
    }
  }

  // What merging means, in terms of the values as they were read: a rule is a word of some value of
  // some entry, each is there once, and they stand in the order in which they first occur.
  lemma MergedRules(entries: seq<Entry>, isSpace: char -> bool)
    ensures var rules := Dedup(EntryTokens(entries, isSpace));
            && (forall word :: word in rules <==> Listed(entries, word, isSpace))
            && FirstOccurrences(rules, EntryTokens(entries, isSpace))
            && forall k :: 0 <= k < |rules| ==> IsWord(rules[k], isSpace)
  {
    DedupMeaning(EntryTokens(entries, isSpace));
    EntryTokensAreWords(entries, isSpace);
    DedupListed(entries, isSpace);
    var rules := Dedup(EntryTokens(entries, isSpace));
    assert forall k :: 0 <= k < |rules| ==> rules[k] in rules;
  }

  lemma {:induction false} ValueTokensAreWords(values: seq<string>, isSpace: char -> bool)
    ensures forall token :: token in ValueTokens(values, isSpace) ==> IsWord(token, isSpace)
  {
    if values != [] {
      ValueTokensAreWords(values[..|values| - 1], isSpace);
    }
  }

  lemma {:induction false} EntryTokensAreWords(entries: seq<Entry>, isSpace: char -> bool)
    ensures forall token :: token in EntryTokens(entries, isSpace) ==> IsWord(token, isSpace)
  {
    if entries != [] {
      EntryTokensAreWords(entries[..|entries| - 1], isSpace);
      match entries[|entries| - 1]
      case None =>
      case Some(values) => ValueTokensAreWords(values, isSpace);
    }
  }

  // A word is its own only word, and the words around a space are those on either side of it.
  lemma {:induction false} WordsOfWord(word: string, isSpace: char -> bool)
    requires IsWord(word, isSpace)
    ensures Words(word, isSpace) == [word]
  {
    if |word| == 1 {
      assert word == [word[0]] && word[1..] == [];
    } else {
      WordsOfWord(word[1..], isSpace);
      assert [word[0]] + word[1..] == word;
    }
  }

  // What one more character in front does to the words: it is a space, joins the first word, or
  // is a word of its own.
  function Grow(c: char, space: bool, joins: bool, words: seq<string>): seq<string>
    requires joins ==> words != []
  {
    if space then words
    else if joins then [[c] + words[0]] + words[1..]
    else [[c]] + words
  }

  predicate Joins(text: string, isSpace: char -> bool) {
    text != [] && !isSpace(text[0])
  }

  lemma WordsOneMore(c: char, text: string, isSpace: char -> bool)
    ensures Words([c] + text, isSpace) == Grow(c, isSpace(c), Joins(text, isSpace), Words(text, isSpace))
  {
  }

  lemma GrowIsLocal(c: char, space: bool, joins: bool, a: seq<string>, b: seq<string>)
    requires joins ==> a != []
    ensures Grow(c, space, joins, a + b) == Grow(c, space, joins, a) + b
  {
    if joins {
      assert (a + b)[1..] == a[1..] + b;
    }
  }

  lemma {:induction false} WordsAroundSpace(left: string, space: char, right: string, isSpace: char -> bool)
    requires isSpace(space)
    ensures Words(left + [space] + right, isSpace) == Words(left, isSpace) + Words(right, isSpace)
  {
    if left == [] {
      assert left + [space] + right == [space] + right;
      WordsOneMore(space, right, isSpace);
    } else {
      var c, rest := left[0], left[1..];
      var text := rest + [space] + right;
      WordsAroundSpace(rest, space, right, isSpace);
      WordsOneMore(c, rest, isSpace);
      WordsOneMore(c, text, isSpace);
      assert Joins(text, isSpace) == Joins(rest, isSpace);
      GrowIsLocal(c, isSpace(c), Joins(rest, isSpace), Words(rest, isSpace), Words(right, isSpace));
      assert left == [c] + rest && left + [space] + right == [c] + text;
    }
  }

  lemma {:induction false} ValueTokensOfWords(words: seq<string>, isSpace: char -> bool)
    requires forall k :: 0 <= k < |words| ==> IsWord(words[k], isSpace)
    ensures ValueTokens(words, isSpace) == words
  {
    if words != [] {
      var last := |words| - 1;
      ValueTokensOfWords(words[..last], isSpace);
      WordsOfWord(words[last], isSpace);
    }
  }

  lemma {:induction false} DedupOfDistinct(tokens: seq<string>)
    requires forall i, j :: 0 <= i < j < |tokens| ==> tokens[i] != tokens[j]
    ensures Dedup(tokens) == tokens
  {
    if tokens != [] {
      DedupOfDistinct(tokens[..|tokens| - 1]);
    }
  }

  // Merging merged rules once more changes nothing.
  lemma MergeIsIdempotent(entries: seq<Entry>, isSpace: char -> bool)
    ensures var rules := Dedup(EntryTokens(entries, isSpace));
            Dedup(EntryTokens([Some(rules)], isSpace)) == rules
  {
    var rules := Dedup(EntryTokens(entries, isSpace));
    MergedRules(entries, isSpace);
    ValueTokensOfWords(rules, isSpace);
    DedupOfDistinct(rules);
    assert [Some(rules)][..0] == [];
    assert EntryTokens([Some(rules)], isSpace) == [] + rules == rules;
  }

  // get_default_acl_rules: the words of the configured text, trimmed, the empty ones left out.
  function DefaultAclRules(text: string, isSpace: char -> bool): seq<string> {
    KeepNonEmpty(Words(text, isSpace), isSpace)
  }

  function KeepNonEmpty(words: seq<string>, isSpace: char -> bool): seq<string> {
    if words == [] then []
    else
      var word := Trim(words[0], isSpace);
      (if word != [] then [word] else []) + KeepNonEmpty(words[1..], isSpace)
  }

  lemma {:induction false} KeepNonEmptyKeepsWords(words: seq<string>, isSpace: char -> bool)
    requires forall k :: 0 <= k < |words| ==> IsWord(words[k], isSpace)
    ensures KeepNonEmpty(words, isSpace) == words
  {
    if words != [] {
      TrimLeavesWords(words[0], isSpace);
      KeepNonEmptyKeepsWords(words[1..], isSpace);
    }
  }

  lemma DefaultRulesAreWords(text: string, isSpace: char -> bool)
    ensures DefaultAclRules(text, isSpace) == Words(text, isSpace)
  {
    KeepNonEmptyKeepsWords(Words(text, isSpace), isSpace);
  }

  lemma TwoDefaultRules(a: string, space: char, b: string, isSpace: char -> bool)
    requires isSpace(space) && IsWord(a, isSpace) && IsWord(b, isSpace)
    ensures DefaultAclRules(a + [space] + b, isSpace) == [a, b]
  {
    DefaultRulesAreWords(a + [space] + b, isSpace);
    WordsAroundSpace(a, space, b, isSpace);
    WordsOfWord(a, isSpace);
    WordsOfWord(b, isSpace);
  }

  // The rules that are configured when nothing else is: "on resetpass".
  lemma ShippedDefaultRules(isSpace: char -> bool)
    requires isSpace(' ') && forall c :: 'a' <= c <= 'z' ==> !isSpace(c)
    ensures DefaultAclRules("on" + [' '] + "resetpass", isSpace) == ["on", "resetpass"]
  {
    TwoDefaultRules("on", ' ', "resetpass", isSpace);
  }
}
