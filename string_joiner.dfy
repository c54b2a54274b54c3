/** dk.preuss.utils.StringJoiner: a delimiter joiner with prefix, suffix and
    an optional empty value, plus conditional add helpers. The wrapped
    java.util.StringJoiner is modelled by its documented state: the three
    framing texts, the empty value, and the fragments added so far. */
module PreussUtils {
  import opened Wrappers
  import opened Strings

  /** The value of a joiner: `prefix`, then the fragments separated by
      `delimiter`, then `suffix`; when nothing was added, `emptyValue` if it
      was set and `prefix + suffix` otherwise. */
  function Render(delimiter: string, prefix: string, suffix: string,
                  emptyValue: Option<string>, fragments: seq<string>): string
  {
    if fragments == [] then
      match emptyValue
      case Some(e) => e
      case None => prefix + suffix
    else
      prefix + Join(fragments, delimiter) + suffix
  }

  /** A value with fragments starts with the prefix and ends with the
      suffix, and what lies between them is the fragments joined by the
      delimiter; without fragments it is the empty value, if set, or
      `prefix + suffix`. */
  lemma RenderFraming(delimiter: string, prefix: string, suffix: string,
                      emptyValue: Option<string>, fragments: seq<string>)
    ensures var r := Render(delimiter, prefix, suffix, emptyValue, fragments);
            (fragments == [] && emptyValue.Some? ==> r == emptyValue.value) &&
            (fragments == [] && emptyValue.None? ==> r == prefix + suffix) &&
            (fragments != [] ==>
               |prefix| + |suffix| <= |r| &&
               r[..|prefix|] == prefix && r[|r| - |suffix|..] == suffix &&
               r[|prefix|..|r| - |suffix|] == Join(fragments, delimiter))
  {
  }

  /** The length of the value as the JDK joiner keeps it: the fragment
      lengths and one delimiter per gap, plus prefix and suffix; the empty
      value's own length while nothing was added and it is set. It always
      equals the length of the value. */
  function RenderLength(delimiter: string, prefix: string, suffix: string,
                        emptyValue: Option<string>, fragments: seq<string>): (n: nat)
    ensures n == |Render(delimiter, prefix, suffix, emptyValue, fragments)|
  {
    if fragments == [] && emptyValue.Some? then |emptyValue.value|
    else if fragments == [] then |prefix| + |suffix|
    else
      JoinLength(fragments, delimiter);
      |prefix| + |suffix| + TotalLength(fragments) + (|fragments| - 1) * |delimiter|
  }

  /** Adding one fragment to a joiner that already has some extends its value
      by the delimiter and the fragment just before the suffix; adding the
      first one gives `prefix + x + suffix`, whatever the empty value. */
  lemma RenderAppend(delimiter: string, prefix: string, suffix: string,
                     emptyValue: Option<string>, fragments: seq<string>, x: string)
    ensures Render(delimiter, prefix, suffix, emptyValue, fragments + [x]) ==
            if fragments == [] then prefix + x + suffix
            else prefix + Join(fragments, delimiter) + delimiter + x + suffix
  {
    var joined := Join(fragments + [x], delimiter);
    assert Render(delimiter, prefix, suffix, emptyValue, fragments + [x]) == prefix + joined + suffix;
    JoinSnoc(fragments, x, delimiter);
    if fragments != [] {
      var front := Join(fragments, delimiter);
      assert joined == front + delimiter + x;
      Reassociate(prefix, front, delimiter, x, suffix);
    }
  }

  /** Regrouping a five-part concatenation. */
  lemma Reassociate(a: string, b: string, c: string, d: string, e: string)
    ensures a + (b + c + d) + e == a + b + c + d + e
  {
  }

  class StringJoiner {
    const delimiter: string
    const prefix: string
    const suffix: string
    /** Set by `SetEmptyValue`; `None` until then. */
    var emptyValue: Option<string>
    /** Every element added so far, in order. */
    var fragments: seq<string>

    /** No characters, no prefix or suffix, and "," as the delimiter. */
    constructor Default()
      ensures delimiter == "," && prefix == "" && suffix == ""
      ensures emptyValue == None && fragments == []
      ensures ToString() == ""
    {
      delimiter, prefix, suffix := ",", "", "";
      emptyValue, fragments := None, [];
    }

    /** No characters, no prefix or suffix, and the given delimiter. */
    constructor WithDelimiter(delimiter: string)
      ensures this.delimiter == delimiter && prefix == "" && suffix == ""
      ensures emptyValue == None && fragments == []
      ensures ToString() == ""
    {
      this.delimiter, prefix, suffix := delimiter, "", "";
      emptyValue, fragments := None, [];
    }

    /** No characters, with the given delimiter, prefix and suffix. */
    constructor (delimiter: string, prefix: string, suffix: string)
      ensures this.delimiter == delimiter && this.prefix == prefix && this.suffix == suffix
      ensures emptyValue == None && fragments == []
      ensures ToString() == prefix + suffix
    {
      this.delimiter, this.prefix, this.suffix := delimiter, prefix, suffix;
      emptyValue, fragments := None, [];
    }

    /** The current value of the joiner. */
    function ToString(): (s: string)
      reads this
      ensures fragments == [] ==> s == if emptyValue.Some? then emptyValue.value else prefix + suffix
      ensures fragments != [] ==> s == prefix + Join(fragments, delimiter) + suffix
    {
      Render(delimiter, prefix, suffix, emptyValue, fragments)
    }

    /** The length of the current value, computed without building it. */
    function Length(): (n: nat)
      reads this
      ensures n == |ToString()|
    {
      RenderLength(delimiter, prefix, suffix, emptyValue, fragments)
    }

    /** Sets the value given while nothing has been added. */
    method SetEmptyValue(emptyValue: string) returns (self: StringJoiner)
      modifies this
      ensures self == this
      ensures this.emptyValue == Some(emptyValue) && fragments == old(fragments)
      ensures old(fragments) == [] ==> ToString() == emptyValue
      ensures old(fragments) != [] ==> ToString() == old(ToString())
    {
      this.emptyValue := Some(emptyValue);
      self := this;
    }

    /** Adds the element, or "null" for a null element, as the next fragment. */
    method Add(newElement: Option<string>) returns (self: StringJoiner)
      modifies this
      ensures self == this
      ensures fragments == old(fragments) + [Text(newElement)]
      ensures emptyValue == old(emptyValue)
      ensures ToString() ==
              if old(fragments) == [] then prefix + Text(newElement) + suffix
              else prefix + Join(old(fragments), delimiter) + delimiter + Text(newElement) + suffix
    {
      RenderAppend(delimiter, prefix, suffix, emptyValue, fragments, Text(newElement));
      fragments := fragments + [Text(newElement)];
      self := this;
    }

    /** Adds the fragments of `other`, joined by `other`'s delimiter and
        without its prefix and suffix, as one fragment; does nothing when
        nothing was added to `other`. */
    method Merge(other: StringJoiner) returns (self: StringJoiner)
      modifies this
      ensures self == this
      ensures fragments ==
              if old(other.fragments) == [] then old(fragments)
              else old(fragments) + [Join(old(other.fragments), other.delimiter)]
      ensures emptyValue == old(emptyValue)
      ensures other != this ==>
                other.fragments == old(other.fragments) && other.emptyValue == old(other.emptyValue)
    {
      if other.fragments != [] {
        fragments := fragments + [Join(other.fragments, other.delimiter)];
      }
      self := this;
    }

    /** Adds `elementPrefix + String.valueOf(newElement)` when the predicate
        holds of the element and does nothing otherwise. */
    method AddIfTrue<T>(elementPrefix: Option<string>, newElement: Option<T>,
                        testIfTrue: Option<T> -> bool, str: T -> string)
      returns (self: StringJoiner)
      modifies this
      ensures self == this
      ensures fragments ==
              if testIfTrue(newElement) then old(fragments) + [Text(elementPrefix) + ValueOf(newElement, str)]
              else old(fragments)
      ensures emptyValue == old(emptyValue)
    {
      if testIfTrue(newElement) {
        ConcatPair(elementPrefix, Some(ValueOf(newElement, str)));
        self := AddConcatenated([elementPrefix, Some(ValueOf(newElement, str))]);
      } else {
        self := this;
      }
    }

    /** Always adds one fragment: `elementPrefix + String.valueOf(newElement)`
        when the predicate holds of the element, `elementPrefix +
        newOtherElement` otherwise. */
    method AddTrueElseOther<T>(elementPrefix: Option<string>, newElement: Option<T>,
                               newOtherElement: Option<string>,
                               testIfNewElement: Option<T> -> bool, str: T -> string)
      returns (self: StringJoiner)
      modifies this
      ensures self == this
      ensures fragments ==
              old(fragments) + [Text(elementPrefix) +
                                (if testIfNewElement(newElement) then ValueOf(newElement, str)
                                 else Text(newOtherElement))]
      ensures emptyValue == old(emptyValue)
    {
      if testIfNewElement(newElement) {
        ConcatPair(elementPrefix, Some(ValueOf(newElement, str)));
        self := AddConcatenated([elementPrefix, Some(ValueOf(newElement, str))]);
      } else {
        ConcatPair(elementPrefix, newOtherElement);
        self := AddConcatenated([elementPrefix, newOtherElement]);
      }
    }

    /** Adds the text of all the pieces, concatenated left to right, as one
        fragment; a null piece contributes "null". */
    method AddConcatenated(newElements: seq<Option<string>>) returns (self: StringJoiner)
      modifies this
      ensures self == this
      ensures fragments == old(fragments) + [Concat(newElements)]
      ensures emptyValue == old(emptyValue)
    {
      var element := "";
      for i := 0 to |newElements|
        invariant element == Concat(newElements[..i])
        invariant fragments == old(fragments) && emptyValue == old(emptyValue)
      {
        ConcatPrefixStep(newElements, i);
        element := element + Text(newElements[i]);
      }
      assert newElements[..|newElements|] == newElements;
      self := Add(Some(element));
    }

    /** The `Object` overload: does nothing for a null element, and otherwise
        hands the element's text to the `CharSequence` overload. */
    method AddIfNotEmptyObject<T>(elementPrefix: Option<string>, element: Option<T>, str: T -> string)
      returns (self: StringJoiner)
      modifies this
      ensures self == this
      ensures fragments ==
              if element.Some? && str(element.value) != "" then
                old(fragments) + [Text(elementPrefix) + str(element.value)]
              else old(fragments)
      ensures emptyValue == old(emptyValue)
    {
      if element.Some? {
        self := AddIfNotEmpty(elementPrefix, Some(ValueOf(element, str)));
        return;
      }
      self := this;
    }

    /** The `CharSequence` overload: adds `elementPrefix + element` when the
        element is non-null and non-empty, and does nothing otherwise. */
    method AddIfNotEmpty(elementPrefix: Option<string>, element: Option<string>)
      returns (self: StringJoiner)
      modifies this
      ensures self == this
      ensures fragments ==
              if element.Some? && element.value != "" then
                old(fragments) + [Text(elementPrefix) + element.value]
              else old(fragments)
      ensures emptyValue == old(emptyValue)
    {
      if element.Some? && |element.value| > 0 {
        ConcatPair(elementPrefix, element);
        self := AddConcatenated([elementPrefix, element]);
        return;
      }
      self := this;
    }

    /** Adds the element itself, WITHOUT `elementPrefix`, when it is non-null
        and has a character that is not whitespace; does nothing otherwise. */
    method AddIfNotBlank(elementPrefix: Option<string>, element: Option<string>)
      returns (self: StringJoiner)
      modifies this
      ensures self == this
      ensures fragments ==
              if element.Some? && !IsBlank(element.value) then old(fragments) + [element.value]
              else old(fragments)
      ensures emptyValue == old(emptyValue)
    {
      if element.Some? && |element.value| > 0 {
        var strLen := |element.value|;
        for i := 0 to strLen
          invariant forall k | 0 <= k < i :: IsWhitespace(element.value[k])
          invariant fragments == old(fragments) && emptyValue == old(emptyValue)
        {
          if !IsWhitespace(element.value[i]) {
            self := Add(element);
            return;
          }
        }
      }
      self := this;
    }
  }
}
