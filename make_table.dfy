/** The HTML snippets of makeTable.py: `quote` and `insertInput`, which
    turn one row of the field table into a label or an input element. */
module MakeTable {

  /** `quote(k)`: the row's cell for column `k` between double quotes (the
      row is the CSV row the script is processing; a missing column raises
      KeyError). */
  function Quote(row: map<string, string>, key: string): (r: string)
    requires key in row
    ensures |r| == |row[key]| + 2
    ensures r[0] == '"' && r[|r| - 1] == '"' && r[1..|r| - 1] == row[key]
  {
    "\"" + row[key] + "\""
  }

  /** ` name="value"`, or nothing for an empty value (Python's truth test
      on a string). */
  function OptionalAttribute(name: string, value: string): string {
    if value == "" then "" else (" " + name + "=\"") + value + "\""
  }

  /** `if value: result += F' name="{value}"'` appends the optional
      attribute. */
  lemma AppendAttribute(before: string, text: string, name: string, value: string, after: string)
    requires text == " " + name + "=\""
    requires after == if value != "" then before + text + value + "\"" else before
    ensures after == before + OptionalAttribute(name, value)
  {
    if value != "" {
      assert before + text + value + "\"" == before + (text + value + "\"");
    }
  }

  lemma Regroup(s: string, a: string, b: string, c: string)
    ensures s + a + b + c == s + (a + b + c)
  {
  }

  const OnChange := " onchange=\"changed(this);\"/>"

  function LabelHtml(field: string, postfix: string): string {
    "<label data-i18n-key=\"" + field + "\">" + field + postfix + "</label>&nbsp;"
  }

  function InputStart(inputType: string, field: string, postfix: string): string {
    "<input type=\"" + inputType + "\" id=\"" + field + postfix + "\""
  }

  /** What insertInput returns, as a function of all ten arguments. */
  function InsertInputHtml(field: string, postfix: string, french: string, english: string,
                           inputType: string, minSize: string, maxSize: string, size: string,
                           minValue: string, maxValue: string): string
  {
    if inputType == "label" then LabelHtml(field, postfix)
    else InputStart(inputType, field, postfix) + Attributes(minSize, maxSize, size) + OnChange
  }

  /** The optional attributes of an input, in the order they are appended. */
  function Attributes(minSize: string, maxSize: string, size: string): string {
    OptionalAttribute("minlen", minSize) + OptionalAttribute("maxlen", maxSize) + OptionalAttribute("minlen", size)
  }

  /** insertInput: a label, or an input built by successive appends. */
  method InsertInput(field: string, postfix: string, french: string, english: string,
                     inputType: string, minSize: string, maxSize: string, size: string,
                     minValue: string, maxValue: string) returns (result: string)
    ensures result == InsertInputHtml(field, postfix, french, english, inputType, minSize, maxSize,
                                      size, minValue, maxValue)
  {
    if inputType == "label" {
      result := "<label data-i18n-key=\"" + field + "\">" + field + postfix + "</label>&nbsp;";
    } else {
      result := "<input type=\"" + inputType + "\" id=\"" + field + postfix + "\"";
      ghost var start := result;
      if minSize != "" {
        result := result + " minlen=\"" + minSize + "\"";
      }
      AppendAttribute(start, " minlen=\"", "minlen", minSize, result);
      ghost var withMin := result;
      if maxSize != "" {
        result := result + " maxlen=\"" + maxSize + "\"";
      }
      AppendAttribute(withMin, " maxlen=\"", "maxlen", maxSize, result);
      ghost var withMax := result;
      if size != "" {
        result := result + " minlen=\"" + size + "\"";
      }
      AppendAttribute(withMax, " minlen=\"", "minlen", size, result);
      Regroup(start, OptionalAttribute("minlen", minSize), OptionalAttribute("maxlen", maxSize),
              OptionalAttribute("minlen", size));
      result := result + " onchange=\"changed(this);\"/>";
    }
  }

  /** An optional attribute is absent exactly for an empty value, and
      otherwise reads ` name="value"`. */
  lemma AttributePresence(name: string, value: string)
    ensures OptionalAttribute(name, value) == "" <==> value == ""
    ensures value != "" ==> OptionalAttribute(name, value) == " " + name + "=\"" + value + "\""
    ensures value != "" ==> |OptionalAttribute(name, value)| == |name| + |value| + 4
  {
  }

  /** A label is exactly `<label data-i18n-key="F">FP</label>&nbsp;`. */
  lemma LabelShape(field: string, postfix: string, french: string, english: string, minSize: string,
                   maxSize: string, size: string, minValue: string, maxValue: string)
    ensures var html := InsertInputHtml(field, postfix, french, english, "label", minSize, maxSize,
                                        size, minValue, maxValue);
            var open := "<label data-i18n-key=\"" + field + "\">";
            && open <= html
            && html[|open|..|open| + |field| + |postfix|] == field + postfix
            && html[|open| + |field| + |postfix|..] == "</label>&nbsp;"
  {
    var html := LabelHtml(field, postfix);
    var open := "<label data-i18n-key=\"" + field + "\">";
    assert html == open + (field + postfix) + "</label>&nbsp;";
  }

  /** Any other type gives an input element: it opens with its type and
      id, closes with the change handler, and in between carries the
      attributes for the minimum size, maximum size and size, in that
      order. */
  lemma InputShape(field: string, postfix: string, french: string, english: string, inputType: string,
                   minSize: string, maxSize: string, size: string, minValue: string, maxValue: string)
    requires inputType != "label"
    ensures var html := InsertInputHtml(field, postfix, french, english, inputType, minSize, maxSize,
                                        size, minValue, maxValue);
            var start := InputStart(inputType, field, postfix);
            var middle := Attributes(minSize, maxSize, size);
            && start <= html
            && |html| == |start| + |middle| + |OnChange|
            && html[|start|..|start| + |middle|] == middle
            && html[|html| - |OnChange|..] == OnChange
            && (middle == "" <==> minSize == "" && maxSize == "" && size == "")
  {
    var html := InsertInputHtml(field, postfix, french, english, inputType, minSize, maxSize,
                                size, minValue, maxValue);
    var start := InputStart(inputType, field, postfix);
    var middle := Attributes(minSize, maxSize, size);
    assert html == start + middle + OnChange;
    Concat3(start, middle, OnChange);
    AttributePresence("minlen", minSize);
    AttributePresence("maxlen", maxSize);
    AttributePresence("minlen", size);
  }

  lemma Concat3(a: string, b: string, c: string)
    ensures (a + b + c)[..|a|] == a
    ensures (a + b + c)[|a|..|a| + |b|] == b
    ensures (a + b + c)[|a| + |b|..] == c
  {
  }

  /** The French and English texts and the value bounds never reach the
      output. */
  lemma IgnoresTextsAndValueBounds(field: string, postfix: string, inputType: string, minSize: string,
                                   maxSize: string, size: string,
                                   french1: string, english1: string, minValue1: string, maxValue1: string,
                                   french2: string, english2: string, minValue2: string, maxValue2: string)
    ensures InsertInputHtml(field, postfix, french1, english1, inputType, minSize, maxSize, size, minValue1, maxValue1)
         == InsertInputHtml(field, postfix, french2, english2, inputType, minSize, maxSize, size, minValue2, maxValue2)
  {
  }
}
