/**
 * `util/parsing.py`: the lenient boolean and comma-separated-list parsers
 * used as coercions for configuration values.
 */
module Parsing {
  import opened Base
  import opened Text
  import opened PyValues

  /** The characters whose presence makes a string read as true. */
  predicate HasTrueMark(vl: string) {
    '1' in vl || 't' in vl || 'y' in vl
  }

  /** `ext_parse_bool(val)`. */
  function ParseBool(v: Value): (r: bool)
    ensures v.Bool? ==> r == v.b
    ensures !v.Bool? && !Truthy(v) ==> !r
    ensures !v.Bool? && Truthy(v) ==> (r <==> HasTrueMark(Lower(PyStr(v))))
  {
    if v.Bool? then v.b
    else if !Truthy(v) then false
    else HasTrueMark(Lower(PyStr(v)))
  }

  /** Case does not matter for a string: upper- and lower-cased spellings parse alike. */
  lemma ParseBoolIgnoresCase(s: string)
    ensures ParseBool(Str(s)) == ParseBool(Str(Upper(s))) == ParseBool(Str(Lower(s)))
  {
    LowerOfUpper(s);
    LowerIdempotent(s);
  }

  /** The words the documentation lists as true parse true, in any case. */
  lemma ParseBoolTrueWords()
    ensures ParseBool(Str("true")) && ParseBool(Str("t")) && ParseBool(Str("yes")) && ParseBool(Str("y")) && ParseBool(Str("1"))
    ensures ParseBool(Str("TRUE")) && ParseBool(Str("YeS"))
  {
    assert Lower("true")[0] == 't';
    assert Lower("t")[0] == 't';
    assert Lower("yes")[0] == 'y';
    assert Lower("y")[0] == 'y';
    assert Lower("1")[0] == '1';
    assert Lower("TRUE")[0] == 't';
    assert Lower("YeS")[0] == 'y';
  }

  /** The words the documentation lists as false, and the falsy values, parse false, in any case. */
  lemma ParseBoolFalseWords()
    ensures !ParseBool(Str("false")) && !ParseBool(Str("f")) && !ParseBool(Str("no")) && !ParseBool(Str("n")) && !ParseBool(Str("0"))
    ensures !ParseBool(Str("")) && !ParseBool(Null) && !ParseBool(Int(0)) && !ParseBool(Str("FaLsE"))
  {
    assert Lower("false") == "false";
    assert Lower("f") == "f";
    assert Lower("no") == "no";
    assert Lower("n") == "n";
    assert Lower("0") == "0";
    assert Lower("FaLsE") == "false";
  }

  /** The test is by characters, not words: a `2` parses false, a `10` or `"fatal"` true. */
  lemma ParseBoolIsCharacterTest()
    ensures !ParseBool(Int(2)) && ParseBool(Int(10)) && ParseBool(Str("fatal")) && !ParseBool(Str("nope"))
  {
    assert PyStr(Int(2)) == "2";
    assert Lower("2") == "2";
    assert PyStr(Int(10)) == "10";
    assert Lower("10")[0] == '1';
    assert Lower("fatal")[2] == 't';
    assert Lower("nope") == "nope";
  }

  /** `[part.strip() for part in parts if part]` over strings: empty parts are dropped before stripping. */
  function StripNonEmpty(parts: seq<string>): (r: seq<string>)
    ensures |r| <= |parts|
  {
    if parts == [] then []
    else (if parts[0] != "" then [Strip(parts[0])] else []) + StripNonEmpty(parts[1..])
  }

  /** The non-empty parts, in order. */
  function NonEmptyParts(parts: seq<string>): (r: seq<string>)
    ensures |r| <= |parts|
    ensures forall x :: x in r <==> x in parts && x != ""
  {
    if parts == [] then []
    else
      assert forall x :: x in parts <==> x == parts[0] || x in parts[1..];
      (if parts[0] != "" then [parts[0]] else []) + NonEmptyParts(parts[1..])
  }

  /** Every part stripped, in order. */
  function StripEach(parts: seq<string>): (r: seq<string>)
    ensures |r| == |parts|
    ensures forall i :: 0 <= i < |parts| ==> r[i] == Strip(parts[i])
  {
    if parts == [] then [] else [Strip(parts[0])] + StripEach(parts[1..])
  }

  /**
   * Filtering then stripping: the output holds the stripped non-empty parts,
   * in input order, so a part that strips to nothing still yields an empty string.
   */
  lemma {:induction false} StripNonEmptyIsFilterThenStrip(parts: seq<string>)
    ensures StripNonEmpty(parts) == StripEach(NonEmptyParts(parts))
  {
    if parts == [] {
      assert StripNonEmpty(parts) == [] && NonEmptyParts(parts) == [];
    } else {
      StripNonEmptyIsFilterThenStrip(parts[1..]);
      var rest := NonEmptyParts(parts[1..]);
      if parts[0] != "" {
        assert NonEmptyParts(parts) == [parts[0]] + rest;
        assert ([parts[0]] + rest)[1..] == rest;
        assert StripEach([parts[0]] + rest) == [Strip(parts[0])] + StripEach(rest);
      } else {
        assert NonEmptyParts(parts) == [] + rest == rest;
        assert StripNonEmpty(parts) == [] + StripNonEmpty(parts[1..]);
      }
    }
  }

  /**
   * The list branch: truthy elements are stripped in order; a truthy element
   * that is not a string has no `strip` and raises `AttributeError`.
   */
  function StripListItems(items: seq<Value>): (r: Result<seq<string>, string>)
    ensures r.Ok? <==> forall i :: 0 <= i < |items| && Truthy(items[i]) ==> items[i].Str?
    ensures r.Ok? ==> |r.value| <= |items|
  {
    if items == [] then Ok([])
    else
      var rest := StripListItems(items[1..]);
      if !Truthy(items[0]) then rest
      else if !items[0].Str? then Err("AttributeError: object has no attribute 'strip'")
      else if rest.Err? then rest
      else Ok([Strip(items[0].s)] + rest.value)
  }

  /** A list of Python strings. */
  function StrItems(parts: seq<string>): (r: seq<Value>)
    ensures |r| == |parts|
    ensures forall i :: 0 <= i < |parts| ==> r[i] == Str(parts[i])
  {
    if parts == [] then [] else [Str(parts[0])] + StrItems(parts[1..])
  }

  /** A list of strings is parsed exactly as the string branch parses its parts. */
  lemma {:induction false} StripListItemsOfStrings(parts: seq<string>)
    ensures StripListItems(StrItems(parts)) == Ok(StripNonEmpty(parts))
  {
    if parts != [] {
      var items := StrItems(parts);
      assert items[1..] == StrItems(parts[1..]);
      StripListItemsOfStrings(parts[1..]);
      var rest := StripNonEmpty(parts[1..]);
      assert StripListItems(items[1..]) == Ok(rest);
      assert items[0] == Str(parts[0]);
      if parts[0] == "" {
        assert StripNonEmpty(parts) == [] + rest == rest;
      } else {
        assert StripNonEmpty(parts) == [Strip(parts[0])] + rest;
      }
    }
  }

  /** `ext_parse_csv(val)`. */
  function ParseCsv(v: Value): (r: Result<seq<string>, string>)
    ensures !Truthy(v) ==> r == Ok([])
    ensures Truthy(v) && !v.List? ==> r == Ok(StripNonEmpty(Split(PyStr(v), ',')))
    ensures Truthy(v) && !v.List? ==> |r.value| <= |Split(PyStr(v), ',')|
    ensures Truthy(v) && v.List? ==> r == StripListItems(v.items)
  {
    if !Truthy(v) then Ok([])
    else if v.List? then StripListItems(v.items)
    else Ok(StripNonEmpty(Split(PyStr(v), ',')))
  }

  lemma SplitBlankExample()
    ensures Split("a, ,b", ',') == ["a", " ", "b"]
  {
    assert "b"[1..] == "" && ",b"[1..] == "b" && " ,b"[1..] == ",b";
    assert ", ,b"[1..] == " ,b" && "a, ,b"[1..] == ", ,b";
    assert Split("", ',') == [""];
    assert ['b'] + "" == "b" && [' '] + "" == " " && ['a'] + "" == "a";
    assert Split("b", ',') == ["b"];
    assert Split(",b", ',') == [""] + ["b"];
    assert Split(" ,b", ',') == [" ", "b"];
    assert Split(", ,b", ',') == [""] + [" ", "b"];
  }

  lemma StripExamples()
    ensures Strip("a") == "a" && Strip("b") == "b" && Strip(" ") == ""
  {
    assert LeadingSpaces("a") == 0 && TrailingSpaces("a") == 0;
    assert LeadingSpaces("b") == 0 && TrailingSpaces("b") == 0;
    assert LeadingSpaces(" ") == 1;
  }

  /** A blank part is kept as an empty string: the emptiness test runs before stripping. */
  lemma ParseCsvKeepsBlankParts()
    ensures ParseCsv(Str("a, ,b")) == Ok(["a", "", "b"])
  {
    SplitBlankExample();
    StripExamples();
    var parts: seq<string> := ["a", " ", "b"];
    assert parts[1..] == [" ", "b"] && parts[1..][1..] == ["b"] && parts[1..][1..][1..] == [];
    assert StripNonEmpty(["b"]) == ["b"];
    assert StripNonEmpty([" ", "b"]) == [""] + ["b"];
    assert StripNonEmpty(parts) == ["a"] + ["", "b"];
    assert PyStr(Str("a, ,b")) == "a, ,b";
    assert Truthy(Str("a, ,b"));
    assert ParseCsv(Str("a, ,b")) == Ok(StripNonEmpty(parts));
    assert ["a"] + ["", "b"] == ["a", "", "b"];
  }

  /** `ext_parse_csv_set(val)`: the elements of the parsed list. */
  function ParseCsvSet(v: Value): (r: Result<set<string>, string>)
    ensures r.Ok? <==> ParseCsv(v).Ok?
    ensures r.Ok? ==> forall x :: x in r.value <==> x in ParseCsv(v).value
  {
    var l := ParseCsv(v);
    if l.Err? then Err(l.error) else Ok(set x | x in l.value)
  }
}
