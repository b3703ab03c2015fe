/** What a placeholder becomes (`ag/ag_conf/property_placeholder_helper.go`). */
module PlaceholderValues {
  import opened Text
  import opened PlaceholderScan
  import opened PlaceholderResolve
  import opened PlaceholderTermination

  // ----- The value of a key -----

  predicate IsSet(props: Properties, key: string) {
    key in props && props[key] != ""
  }

  /** The first separator of the key stands at `i`. */
  ghost predicate Separates(h: Helper, key: string, i: nat) {
    h.separator != "" && At(key, i, h.separator) && forall j: nat | j < i :: !At(key, j, h.separator)
  }

  /** What is configured for the key as a whole comes first; then what is configured for its part in front of
      the separator, then the default behind it. Without a separator an unset key has no value. */
  ghost predicate HasValue(h: Helper, props: Properties, key: string, value: string) {
    if IsSet(props, key) then value == props[key]
    else if exists i: nat :: Separates(h, key, i) then
      forall i: nat :: Separates(h, key, i) ==>
        value == if IsSet(props, key[..i]) then props[key[..i]] else key[i + |h.separator|..]
    else value == ""
  }

  lemma OneSeparator(h: Helper, key: string)
    ensures h.separator != "" && Index(key, h.separator) != -1 ==> Separates(h, key, Index(key, h.separator))
    ensures forall i: nat :: Separates(h, key, i) ==> i == Index(key, h.separator)
  {
    hide At, Index;
    forall i: nat | Separates(h, key, i) ensures i == Index(key, h.separator) {
      IndexIsFirst(key, h.separator, i);
    }
  }

  /** The value the resolver takes is the one value that the key has. */
  lemma ValueIsLookedUp(h: Helper, props: Properties, key: string, value: string)
    ensures HasValue(h, props, key, value) <==> value == ValueOf(h, props, key)
  {
    hide At, Index, Separates;
    OneSeparator(h, key);
    if h.separator == "" || Index(key, h.separator) == -1 {
      assert !exists i: nat :: Separates(h, key, i) by { NoneWithout(h, key); }
    } else {
      var i: nat := Index(key, h.separator);
      assert Separates(h, key, i);
    }
  }

  lemma NoneWithout(h: Helper, key: string)
    requires h.separator == "" || Index(key, h.separator) == -1
    ensures forall i: nat :: !Separates(h, key, i)
  {
    hide Index;
    OneSeparator(h, key);
  }

  // ----- One placeholder in a text -----

  /** A placeholder behind text without the first character of a prefix, and in front of any text. */
  function TextWith(h: Helper, before: string, inner: string, after: string): string {
    before + (h.prefix + (inner + (h.suffix + after)))
  }

  lemma TextParts(h: Helper, before: string, inner: string, after: string)
    ensures var s, i := TextWith(h, before, inner, after), |before| + |h.prefix|;
      && s[..|before|] == before && At(s, |before|, h.prefix) && At(s, i + |inner|, h.suffix)
      && i + |inner| + |h.suffix| <= |s|
      && s[i..i + |inner|] == inner && s[i + |inner| + |h.suffix|..] == after
  {
    var s, i := TextWith(h, before, inner, after), |before| + |h.prefix|;
    assert s[|before|..i] == h.prefix;
    assert s[i + |inner|..i + |inner| + |h.suffix|] == h.suffix;
  }

  lemma NoPrefixBefore(h: Helper, before: string, inner: string, after: string, j: nat)
    requires h.prefix[0] !in before && j < |before|
    ensures !At(TextWith(h, before, inner, after), j, h.prefix)
  {
    var s := TextWith(h, before, inner, after);
    hide At;
    assert s[j] == before[j];
    AtBegins(s, j, h.prefix);
  }

  /** It is the first one of the text. */
  lemma FirstIsThere(h: Helper, before: string, inner: string, after: string, t: Bracketed)
    requires h.prefix[0] !in before
    requires Spells(h, t, TextWith(h, before, inner, after), |before| + |h.prefix|) && Width(h, t) == |inner|
    ensures First(h, TextWith(h, before, inner, after)) == Span(|before|, |before| + |h.prefix| + |inner|)
  {
    hide At, Close, Spells, TextWith, Index;
    var s := TextWith(h, before, inner, after);
    TextParts(h, before, inner, after);
    SpelledTextCloses(h, t, s, |before| + |h.prefix|);
    forall j: nat | j < |before| ensures !At(s, j, h.prefix) {
      NoPrefixBefore(h, before, inner, after, j);
    }
    IndexIsFirst(s, h.prefix, |before|);
  }

  lemma ResolvePlaceholder(h: Helper, props: Properties, fuel: nat, before: string, inner: string, after: string,
                           visited: set<string>, t: Bracketed)
    requires h.prefix[0] !in before
    requires Spells(h, t, TextWith(h, before, inner, after), |before| + |h.prefix|) && Width(h, t) == |inner|
    ensures Resolve(h, props, fuel + 1, TextWith(h, before, inner, after), visited) ==
      if inner in visited then Circular(inner)
      else Then(Expand(h, props, fuel, inner, visited), before, Resolve(h, props, fuel, after, visited))
  {
    hide First, Spells, At, TextWith, Resolve, Expand, Then;
    FirstIsThere(h, before, inner, after, t);
    TextParts(h, before, inner, after);
    ResolveStep(h, props, fuel + 1, TextWith(h, before, inner, after), visited);
  }

  /** A bracketed placeholder, however its key is put together, becomes what the value of the key resolves to,
      between what stands in front of it and what the text behind it resolves to. Without a value it is
      kept as it is written, or its key is reported. */
  lemma PlaceholderIsReplaced(h: Helper, props: Properties, fuel: nat, before: string, inner: string, after: string,
                              visited: set<string>, t: Bracketed, key: string, value: string)
    requires h.prefix[0] !in before && inner !in visited
    requires Spells(h, t, TextWith(h, before, inner, after), |before| + |h.prefix|) && Width(h, t) == |inner|
    requires Resolve(h, props, fuel, inner, visited + {inner}) == Resolved(key) && HasValue(h, props, key, value)
    ensures var r := Resolve(h, props, fuel + 1, TextWith(h, before, inner, after), visited);
      var v, rest := Resolve(h, props, fuel, value, visited + {inner}), Resolve(h, props, fuel, after, visited);
      if value != "" then
        if !v.Resolved? then r == v
        else if !rest.Resolved? then r == rest
        else r == Resolved(before + v.text + rest.text)
      else if h.ignoreUnresolvable then
        if !rest.Resolved? then r == rest
        else r == Resolved(before + (h.prefix + inner + h.suffix) + rest.text)
      else r == Unresolvable(key)
  {
    hide Spells, TextWith, Resolve, HasValue, ValueOf;
    ResolvePlaceholder(h, props, fuel, before, inner, after, visited, t);
    ValueIsLookedUp(h, props, key, value);
  }

  // ----- Placeholders without anything nested -----

  /** Text without the first character of a delimiter. */
  predicate Plain(h: Helper, s: string) {
    h.prefix[0] !in s && h.suffix[0] !in s
  }

  function Chars(n: nat): (t: Bracketed) {
    if n == 0 then End else Char(Chars(n - 1))
  }

  lemma {:induction false} PlainIsSpelled(h: Helper, s: string, i: nat, n: nat)
    requires i + n <= |s| && forall k :: i <= k < i + n ==> s[k] != h.prefix[0] && s[k] != h.suffix[0]
    ensures Spells(h, Chars(n), s, i) && Width(h, Chars(n)) == n
    decreases n
  {
    if n > 0 {
      hide At;
      AtBegins(s, i, h.prefix);
      AtBegins(s, i, h.suffix);
      PlainIsSpelled(h, s, i + 1, n - 1);
    }
  }

  lemma PlainInText(h: Helper, before: string, inner: string, after: string)
    requires Plain(h, inner)
    ensures Spells(h, Chars(|inner|), TextWith(h, before, inner, after), |before| + |h.prefix|)
    ensures Width(h, Chars(|inner|)) == |inner|
  {
    var s, i := TextWith(h, before, inner, after), |before| + |h.prefix|;
    assert forall k :: i <= k < i + |inner| ==> s[k] == inner[k - i];
    hide TextWith, Spells, Chars;
    PlainIsSpelled(h, s, i, |inner|);
  }

  lemma PlainResolves(h: Helper, props: Properties, fuel: nat, s: string, visited: set<string>)
    requires h.prefix[0] !in s && fuel > 0
    ensures Resolve(h, props, fuel, s, visited) == Resolved(s)
  {
    hide First, Resolve, Clean;
    PlainTextIsClean(h, s);
    ResolveStep(h, props, fuel, s, visited);
  }

  /** The parts around the first separator. */
  lemma SeparatorThere(h: Helper, name: string, default: string)
    requires h.separator != "" && forall j: nat | j < |name| :: !At(name + (h.separator + default), j, h.separator)
    ensures var key := name + (h.separator + default);
      Separates(h, key, |name|) && key[..|name|] == name && key[|name| + |h.separator|..] == default
  {
    var key := name + (h.separator + default);
    assert key[|name|..|name| + |h.separator|] == h.separator;
  }

  /** A placeholder with a default becomes the value configured for the name; the default only when none is.
      (What is configured for the whole text between the delimiters goes before both.) */
  lemma DefaultIsForUnsetNames(h: Helper, props: Properties, fuel: nat, name: string, default: string, visited: set<string>)
    requires h.separator != "" && forall j: nat | j < |name| :: !At(name + (h.separator + default), j, h.separator)
    requires Plain(h, name + (h.separator + default)) && name + (h.separator + default) !in visited && fuel > 1
    ensures var inner := name + (h.separator + default);
      var r := Resolve(h, props, fuel, h.prefix + (inner + h.suffix), visited);
      && (IsSet(props, inner) && h.prefix[0] !in props[inner] ==> r == Resolved(props[inner]))
      && (!IsSet(props, inner) && IsSet(props, name) && h.prefix[0] !in props[name] ==> r == Resolved(props[name]))
      && (!IsSet(props, inner) && !IsSet(props, name) && default != "" ==> r == Resolved(default))
      && (!IsSet(props, inner) && !IsSet(props, name) && default == "" ==>
            r == if h.ignoreUnresolvable then Resolved(h.prefix + (inner + h.suffix)) else Unresolvable(inner))
  {
    hide At, Resolve, Spells, Chars, Index, Separates;
    var inner := name + (h.separator + default);
    SeparatorThere(h, name, default);
    OneSeparator(h, inner);
    var value := if IsSet(props, inner) then props[inner] else if IsSet(props, name) then props[name] else default;
    assert HasValue(h, props, inner, value);
    PlainPlaceholder(h, props, fuel, inner, visited, value);
    assert forall c :: c in default ==> c in inner;
  }

  /** So does one without a default, which has no separator in it. */
  lemma NameIsLookedUp(h: Helper, props: Properties, fuel: nat, name: string, visited: set<string>)
    requires h.separator == "" || forall j: nat :: !At(name, j, h.separator)
    requires Plain(h, name) && name !in visited && fuel > 1
    ensures var r := Resolve(h, props, fuel, h.prefix + (name + h.suffix), visited);
      && (IsSet(props, name) && h.prefix[0] !in props[name] ==> r == Resolved(props[name]))
      && (!IsSet(props, name) ==>
            r == if h.ignoreUnresolvable then Resolved(h.prefix + (name + h.suffix)) else Unresolvable(name))
  {
    hide At, Resolve, Spells, Chars, Index;
    var value := if IsSet(props, name) then props[name] else "";
    assert forall i: nat :: !Separates(h, name, i);
    PlainPlaceholder(h, props, fuel, name, visited, value);
  }

  lemma PlainPlaceholder(h: Helper, props: Properties, fuel: nat, inner: string, visited: set<string>, value: string)
    requires Plain(h, inner) && inner !in visited && fuel > 1 && HasValue(h, props, inner, value)
    ensures var r := Resolve(h, props, fuel, h.prefix + (inner + h.suffix), visited);
      && (value != "" && h.prefix[0] !in value ==> r == Resolved(value))
      && (value == "" ==> r == if h.ignoreUnresolvable then Resolved(h.prefix + (inner + h.suffix)) else Unresolvable(inner))
  {
    hide Resolve, Spells, Chars, HasValue;
    assert TextWith(h, "", inner, "") == h.prefix + (inner + h.suffix);
    PlainInText(h, "", inner, "");
    PlainResolves(h, props, fuel - 1, inner, visited + {inner});
    PlainResolves(h, props, fuel - 1, "", visited);
    hide TextWith;
    PlaceholderIsReplaced(h, props, fuel - 1, "", inner, "", visited, Chars(|inner|), inner, value);
    if value != "" && h.prefix[0] !in value {
      PlainResolves(h, props, fuel - 1, value, visited + {inner});
      assert "" + value + "" == value;
    }
    assert "" + (h.prefix + inner + h.suffix) + "" == h.prefix + (inner + h.suffix);
  }
}
