/**
 * `ReportHelper.processTemplate`: fills a report template by replacing every
 * `{{key}}` with the text of the key's value, one map entry after another.
 */
module ReportHelper {
  import opened Wrappers
  import opened Strings

  /** Returned instead of a rendering when the template is null or empty. */
  const TemplateUnavailable: string := "No se pudo cargar la plantilla"

  /** Substituted for an entry whose value is null. */
  const NullValueText: string := "No especificado"

  /** One entry of the data map, in the order the map is iterated; `None` is a null value. */
  type Entry = (string, Option<string>)

  function Placeholder(key: string): (p: string)
    ensures |p| == |key| + 4
  {
    "{{" + key + "}}"
  }

  /** `value != null ? value.toString() : "No especificado"`. */
  function ValueText(value: Option<string>): string {
    value.GetOr(NullValueText)
  }

  /** One iteration of the loop: replace every placeholder of the entry's key. */
  function ApplyEntry(text: string, entry: Entry): string {
    ReplaceAll(text, Placeholder(entry.0), ValueText(entry.1))
  }

  /** The entries applied one after another, first entry first. */
  function ApplyEntries(text: string, entries: seq<Entry>): string
    decreases |entries|
  {
    if entries == [] then text else ApplyEntries(ApplyEntry(text, entries[0]), entries[1..])
  }

  /** What `processTemplate(template, data)` returns; `None` is a null template. */
  function Rendered(template: Option<string>, data: seq<Entry>): (r: string)
    ensures template == None || template == Some("") ==> r == TemplateUnavailable
    ensures data == [] && template.Some? && template.value != "" ==> r == template.value
  {
    if template.None? || template.value == "" then TemplateUnavailable
    else ApplyEntries(template.value, data)
  }

  method ProcessTemplate(template: Option<string>, data: seq<Entry>) returns (result: string)
    ensures result == Rendered(template, data)
  {
    if template.None? || template.value == "" {
      return TemplateUnavailable;
    }
    result := template.value;
    var i := 0;
    while i < |data|
      invariant 0 <= i <= |data|
      invariant ApplyEntries(result, data[i..]) == ApplyEntries(template.value, data)
    {
      var (key, value) := data[i];
      assert data[i..][1..] == data[i + 1..];
      result := ReplaceAll(result, Placeholder(key), ValueText(value));
      i := i + 1;
    }
    assert data[i..] == [];
  }

  /** Applying a list of entries in two parts is applying the parts in turn. */
  lemma {:induction false} ApplyEntriesAppend(text: string, first: seq<Entry>, rest: seq<Entry>)
    ensures ApplyEntries(text, first + rest) == ApplyEntries(ApplyEntries(text, first), rest)
    decreases |first|
  {
    if first == [] {
      assert first + rest == rest;
    } else {
      assert (first + rest)[1..] == first[1..] + rest;
      ApplyEntriesAppend(ApplyEntry(text, first[0]), first[1..], rest);
    }
  }

  /** Text holding no placeholder of any entry's key comes back unchanged. */
  lemma {:induction false} ApplyEntriesNoPlaceholder(text: string, entries: seq<Entry>)
    requires forall i :: 0 <= i < |entries| ==> !Contains(text, Placeholder(entries[i].0))
    ensures ApplyEntries(text, entries) == text
    decreases |entries|
  {
    if entries != [] {
      ReplaceAllAbsent(text, Placeholder(entries[0].0), ValueText(entries[0].1));
      ApplyEntriesNoPlaceholder(text, entries[1..]);
    }
  }

  /** Text without `{{` (for instance single-brace `{key}` text) is never rewritten. */
  lemma NoDoubleBraceUnchanged(text: string, entries: seq<Entry>)
    requires !Contains(text, "{{")
    ensures ApplyEntries(text, entries) == text
  {
    forall i | 0 <= i < |entries| ensures !Contains(text, Placeholder(entries[i].0)) {
      var p := Placeholder(entries[i].0);
      if Contains(text, p) {
        var j :| 0 <= j <= |text| - |p| && OccursAt(text, p, j);
        assert text[j..j + 2] == p[..2] == "{{";
        assert OccursAt(text, "{{", j);
      }
    }
    ApplyEntriesNoPlaceholder(text, entries);
  }

  /** A key that cannot break a placeholder open or shut. */
  predicate BraceFree(key: string) {
    forall i :: 0 <= i < |key| ==> key[i] != '{' && key[i] != '}'
  }

  /** In a placeholder of a brace-free key, braces stand only at the two ends. */
  lemma PlaceholderBraces(key: string, m: int)
    requires BraceFree(key) && 0 <= m < |key| + 4
    ensures Placeholder(key)[m] == '{' <==> m < 2
    ensures Placeholder(key)[m] == '}' <==> m >= |key| + 2
  {
    if 2 <= m < |key| + 2 {
      assert Placeholder(key)[m] == key[m - 2];
    }
  }

  /**
   * An occurrence of the placeholder of `a` that starts no later than an
   * occurrence of the placeholder of `k` either ends before it starts or is the
   * same placeholder at the same place.
   */
  lemma PlaceholderNoOverlapFrom(s: string, a: string, k: string, i: int, j: int)
    requires BraceFree(a) && BraceFree(k) && i <= j
    requires OccursAt(s, Placeholder(a), i) && OccursAt(s, Placeholder(k), j)
    ensures i + |a| + 4 <= j || (i == j && a == k)
  {
    var p, q := Placeholder(a), Placeholder(k);
    assert forall m :: 0 <= m < |p| ==> s[i + m] == p[m] by {
      forall m | 0 <= m < |p| ensures s[i + m] == p[m] {
        assert s[i..i + |p|][m] == s[i + m];
      }
    }
    assert forall m :: 0 <= m < |q| ==> s[j + m] == q[m] by {
      forall m | 0 <= m < |q| ensures s[j + m] == q[m] {
        assert s[j..j + |q|][m] == s[j + m];
      }
    }
    if j < i + |p| {
      if i == j {
        if |p| < |q| {
          PlaceholderBraces(a, |p| - 2);
          PlaceholderBraces(k, |p| - 2);
        } else if |q| < |p| {
          PlaceholderBraces(a, |q| - 2);
          PlaceholderBraces(k, |q| - 2);
        } else {
          assert p == q;
          assert a == p[2..|p| - 2] && k == q[2..|q| - 2];
        }
      } else {
        PlaceholderBraces(a, j - i);
        PlaceholderBraces(k, 0);
        PlaceholderBraces(a, 2);
        PlaceholderBraces(k, 1);
      }
    }
  }

  /** Placeholders of two different brace-free keys never overlap in any text. */
  lemma PlaceholdersDisjoint(s: string, a: string, k: string, i: int, j: int)
    requires BraceFree(a) && BraceFree(k) && a != k
    requires OccursAt(s, Placeholder(a), i) && OccursAt(s, Placeholder(k), j)
    ensures i + |Placeholder(a)| <= j || j + |Placeholder(k)| <= i
  {
    if i <= j {
      PlaceholderNoOverlapFrom(s, a, k, i, j);
    } else {
      PlaceholderNoOverlapFrom(s, k, a, j, i);
    }
  }

  /**
   * A placeholder whose key has no entry stays where it is, whatever the
   * entries' values insert, as long as keys are brace-free: the text on each
   * side of it is rendered on its own.
   */
  lemma {:induction false} AbsentPlaceholderSurvives(x: string, y: string, entries: seq<Entry>, k: string)
    requires BraceFree(k)
    requires forall i :: 0 <= i < |entries| ==> BraceFree(entries[i].0) && entries[i].0 != k
    ensures ApplyEntries(x + Placeholder(k) + y, entries) ==
            ApplyEntries(x, entries) + Placeholder(k) + ApplyEntries(y, entries)
    decreases |entries|
  {
    if entries != [] {
      var (a, value) := entries[0];
      var p, q, r := Placeholder(a), Placeholder(k), ValueText(value);
      var text := x + q + y;
      assert text[|x|..|x| + |q|] == q;
      forall i | OccursAt(text, p, i) ensures i + |p| <= |x| || |x| + |q| <= i {
        PlaceholdersDisjoint(text, a, k, i, |x|);
      }
      ReplaceAllKeeps(x, q, y, p, r);
      AbsentPlaceholderSurvives(ApplyEntry(x, entries[0]), ApplyEntry(y, entries[0]), entries[1..], k);
    }
  }

  /**
   * Entries are applied in sequence, so a value may insert a placeholder that a
   * later entry then fills, and the order of the entries decides the result.
   */
  lemma LaterEntryRewritesEarlierValue()
    ensures Rendered(Some("{{a}}"), [("a", Some("{{b}}")), ("b", Some("x"))]) == "x"
    ensures Rendered(Some("{{a}}"), [("b", Some("x")), ("a", Some("{{b}}"))]) == "{{b}}"
  {
    var ea, eb := ("a", Some("{{b}}")), ("b", Some("x"));
    assert ApplyEntry("{{a}}", ea) == "{{b}}" by {
      ReplaceAllLeftmost("", "{{a}}", "", "{{b}}");
    }
    assert ApplyEntry("{{b}}", eb) == "x" by {
      ReplaceAllLeftmost("", "{{b}}", "", "x");
    }
    assert ApplyEntry("{{a}}", eb) == "{{a}}" by {
      assert "{{a}}"[0..5][2] == 'a' != 'b' == "{{b}}"[2];
      ReplaceAllAbsent("{{a}}", "{{b}}", "x");
    }
    assert [ea, eb][1..] == [eb] && [eb, ea][1..] == [ea];
  }
}
