/** The composite key a named HCL block gets in the legacy emitters
    (index.ts lines 145-156, index.js lines 133-140): the block name, then
    each label, all joined by a separator.

    index.ts uses the two-character separator U+0E38 U+0E13 (two Thai
    characters); index.js uses `_`.
 */
module BlockKeys {
  import opened Wrappers
  import opened Text

  /** The separator of index.ts, line 10. */
  const ThaiSep: string := "\U{0E38}\U{0E13}"

  /** The separator of index.js, lines 134 and 139. */
  const Underscore: string := "_"

  /** `${name}${suffix}`, where the suffix is empty without labels and is
      `sep` followed by the labels joined by `sep` otherwise. */
  function Key(name: string, labels: seq<string>, sep: string): (r: string)
    ensures |labels| == 0 ==> r == name
    ensures StartsWith(r, name)
    ensures |labels| > 0 ==> |r| >= |name| + |sep| && r[|name|..|name| + |sep|] == sep
  {
    if |labels| == 0 then name else name + sep + Join(labels, sep)
  }

  /** The key is the join of the name and the labels. */
  lemma KeyIsJoin(name: string, labels: seq<string>, sep: string)
    ensures Key(name, labels, sep) == Join([name] + labels, sep)
  {
    var parts := [name] + labels;
    if |labels| > 0 {
      assert parts[1..] == labels;
    }
  }

  /** Both separators are borderless: no proper prefix is also a suffix. */
  lemma SeparatorsBorderless()
    ensures Borderless(ThaiSep) && Borderless(Underscore)
  {
    forall m: nat | 0 < m < |ThaiSep|
      ensures ThaiSep[..m] != ThaiSep[|ThaiSep| - m..]
    {
      assert m == 1;
      assert ThaiSep[..1][0] == '\U{0E38}';
      assert ThaiSep[1..][0] == '\U{0E13}';
    }
  }

  /** Splitting a key on a borderless separator that occurs in neither the
      name nor any label recovers the name and the labels. */
  lemma KeySplit(name: string, labels: seq<string>, sep: string)
    requires |sep| > 0 && Borderless(sep)
    requires !Contains(name, sep)
    requires forall k :: 0 <= k < |labels| ==> !Contains(labels[k], sep)
    ensures Split(Key(name, labels, sep), sep) == [name] + labels
  {
    KeyIsJoin(name, labels, sep);
    var parts := [name] + labels;
    forall k | 0 <= k < |parts|
      ensures !Contains(parts[k], sep)
    {
      if k > 0 {
        assert parts[k] == labels[k - 1];
      }
    }
    SplitJoin(parts, sep);
  }

  /** The index.ts key splits back into name and labels when the Thai
      separator occurs in none of them. */
  lemma ThaiKeySplit(name: string, labels: seq<string>)
    requires !Contains(name, ThaiSep)
    requires forall k :: 0 <= k < |labels| ==> !Contains(labels[k], ThaiSep)
    ensures Split(Key(name, labels, ThaiSep), ThaiSep) == [name] + labels
  {
    SeparatorsBorderless();
    KeySplit(name, labels, ThaiSep);
  }

  /** With `_` the encoding is not injective: the block `a_b` and the block
      `a` with label `b` get the same key, so one of them is lost when the
      keys are read back. */
  lemma UnderscoreKeysCollide()
    ensures Key("a_b", [], Underscore) == Key("a", ["b"], Underscore)
    ensures Split(Key("a_b", [], Underscore), Underscore) != ["a_b"]
  {
    var k := Key("a_b", [], Underscore);
    assert k == "a_b";
    assert OccursAt(k, Underscore, 1);
  }

  /** A named block's code is `key:value`. The key is the text before the
      first `:`, and splitting it on a borderless separator gives back the
      block's name and labels, provided none of them holds a `:` or the
      separator. */
  lemma BlockEntrySplit(name: string, labels: seq<string>, sep: string, value: string)
    requires |sep| > 0 && Borderless(sep) && ':' !in sep
    requires ':' !in name && !Contains(name, sep)
    requires forall k :: 0 <= k < |labels| ==> ':' !in labels[k] && !Contains(labels[k], sep)
    ensures var key := Key(name, labels, sep);
      && IndexOf(key + ":" + value, ":") == Some(|key|)
      && Split(key, sep) == [name] + labels
  {
    var key := Key(name, labels, sep);
    var text := key + ":" + value;
    assert ':' !in key by {
      JoinAvoids(labels, sep, ':');
    }
    assert IndexOf(text, ":") == Some(|key|) by {
      FirstAfterPrefix(key, ':', value);
    }
    KeySplit(name, labels, sep);
  }

  /** For index.ts's separator in particular. */
  lemma ThaiBlockEntrySplit(name: string, labels: seq<string>, value: string)
    requires ':' !in name && !Contains(name, ThaiSep)
    requires forall k :: 0 <= k < |labels| ==> ':' !in labels[k] && !Contains(labels[k], ThaiSep)
    ensures var key := Key(name, labels, ThaiSep);
      && IndexOf(key + ":" + value, ":") == Some(|key|)
      && Split(key, ThaiSep) == [name] + labels
  {
    SeparatorsBorderless();
    BlockEntrySplit(name, labels, ThaiSep, value);
  }
}
