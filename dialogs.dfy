/**
 * The pure parts of the add-widget dialog (src/melange/dialogs.py): `split_string`, which breaks a
 * description into lines of about thirty characters, and the grouping of widget manifests by category.
 */
module Dialogs {
  import opened Wrappers
  import opened Text

  // ---------------------------------------------------------------------------------------------
  // split_string

  /** The whitespace of Python 2's `str.split()`: space, tab, newline, return, vertical tab, form feed. */
  predicate IsSpace(c: char)
  {
    c == ' ' || c == '\t' || c == '\n' || c == '\r' || c == '\U{B}' || c == '\U{C}'
  }

  /** A word of `str.split()`: non-empty, with no whitespace in it. */
  predicate IsWord(w: string)
  {
    w != [] && forall k :: 0 <= k < |w| ==> !IsSpace(w[k])
  }

  /** The end of the word that starts at `i`. */
  function WordEnd(s: string, i: nat): (j: nat)
    requires i <= |s|
    ensures i <= j <= |s|
    ensures forall k :: i <= k < j ==> !IsSpace(s[k])
    ensures j == |s| || IsSpace(s[j])
    decreases |s| - i
  {
    if i == |s| || IsSpace(s[i]) then i else WordEnd(s, i + 1)
  }

  /** `s.split()`: the maximal runs of non-whitespace characters, in order. */
  function Words(s: string): (ws: seq<string>)
    ensures forall i :: 0 <= i < |ws| ==> IsWord(ws[i])
    decreases |s|
  {
    if s == [] then []
    else if IsSpace(s[0]) then Words(s[1..])
    else
      var j := WordEnd(s, 0);
      [s[..j]] + Words(s[j..])
  }

  /** `s.split()` is empty exactly when `s` is empty or all whitespace. */
  lemma {:induction false} NoWordsIffBlank(s: string)
    ensures Words(s) == [] <==> forall k :: 0 <= k < |s| ==> IsSpace(s[k])
    decreases |s|
  {
    if s != [] && IsSpace(s[0]) {
      NoWordsIffBlank(s[1..]);
      assert forall k :: 1 <= k < |s| ==> s[k] == s[1..][k - 1];
    }
  }

  /** The line-break token of `split_string`. */
  const NEWLINE: string := "\n"

  /** The characters counted since the last line break (`chars` in the loop). */
  function Running(ts: seq<string>): nat
  {
    if ts == [] then 0
    else if ts[|ts| - 1] == NEWLINE then 0
    else Running(ts[..|ts| - 1]) + |ts[|ts| - 1]|
  }

  /** One round of the loop: a break first when more than thirty characters are on the line. */
  function Step(ts: seq<string>, w: string): seq<string>
  {
    if Running(ts) > 30 then ts + [NEWLINE, w] else ts + [w]
  }

  /** The token list `lst` that `split_string` builds from the words. */
  function Layout(ws: seq<string>): seq<string>
  {
    if ws == [] then [] else Step(Layout(ws[..|ws| - 1]), ws[|ws| - 1])
  }

  /** The tokens other than line breaks. */
  function Strip(ts: seq<string>): seq<string>
  {
    if ts == [] then []
    else Strip(ts[..|ts| - 1]) + (if ts[|ts| - 1] == NEWLINE then [] else [ts[|ts| - 1]])
  }

  /** The three properties that together pin the layout down (see `LayoutUnique`). */
  predicate Breaks(ts: seq<string>)
  {
    forall i :: 0 <= i < |ts| ==> (ts[i] == NEWLINE <==> Running(ts[..i]) > 30)
  }

  predicate Proper(ts: seq<string>)
  {
    ts != [] ==> ts[|ts| - 1] != NEWLINE
  }

  predicate NoBreakTokens(ws: seq<string>)
  {
    forall i :: 0 <= i < |ws| ==> ws[i] != NEWLINE
  }

  lemma WordsHaveNoBreakTokens(ws: seq<string>)
    requires forall i :: 0 <= i < |ws| ==> IsWord(ws[i])
    ensures NoBreakTokens(ws)
  {
    forall i | 0 <= i < |ws| ensures ws[i] != NEWLINE {
      assert IsSpace(NEWLINE[0]);
      assert !IsSpace(ws[i][0]);
    }
  }

  lemma RunningSnoc(ts: seq<string>, w: string)
    requires w != NEWLINE
    ensures (ts + [w])[..|ts|] == ts
    ensures Running(ts + [w]) == Running(ts) + |w|
  {
    assert (ts + [w])[..|ts|] == ts;
  }

  lemma RunningAppend(ts: seq<string>, w: string)
    requires w != NEWLINE
    ensures (ts + [w])[..|ts|] == ts
    ensures Running(ts + [w]) == Running(ts) + |w|
    ensures Running(ts + [NEWLINE, w]) == |w|
  {
    RunningSnoc(ts, w);
    RunningSnoc(ts + [NEWLINE], w);
    assert ts + [NEWLINE, w] == ts + [NEWLINE] + [w];
  }

  /**
   * The tokens of the layout are the words, in order, with some line breaks between them; a break
   * stands exactly where more than thirty characters have been counted since the previous one, and
   * no break comes first or last.
   */
  lemma {:induction false} LayoutProperties(ws: seq<string>)
    requires NoBreakTokens(ws)
    ensures Strip(Layout(ws)) == ws
    ensures Breaks(Layout(ws))
    ensures Proper(Layout(ws))
    ensures Layout(ws) == [] <==> ws == []
  {
    if ws != [] {
      var n := |ws| - 1;
      var p := ws[..n];
      var w := ws[n];
      assert ws == p + [w];
      assert NoBreakTokens(p) by {
        forall i | 0 <= i < |p| ensures p[i] != NEWLINE { assert p[i] == ws[i]; }
      }
      LayoutProperties(p);
      var t := Layout(p);
      var u := Layout(ws);
      BreaksStep(t, w);
      if Running(t) > 30 {
        assert u == t + [NEWLINE, w];
        assert u[..|t| + 1] == t + [NEWLINE];
        assert (t + [NEWLINE])[..|t|] == t;
        assert Strip(t + [NEWLINE]) == Strip(t);
        assert Strip(u) == ws;
      } else {
        assert u == t + [w];
        assert u[..|t|] == t;
      }
    }
  }

  /** One round of the loop keeps every break where the thirty-character rule puts it. */
  lemma BreaksStep(t: seq<string>, w: string)
    requires Breaks(t) && w != NEWLINE
    ensures Breaks(Step(t, w))
  {
    RunningAppend(t, w);
    var u := Step(t, w);
    if Running(t) > 30 {
      forall i | 0 <= i < |u| ensures u[i] == NEWLINE <==> Running(u[..i]) > 30 {
        if i < |t| {
          assert u[..i] == t[..i];
        } else if i == |t| {
          assert u[..i] == t;
        } else {
          assert u[..i] == t + [NEWLINE];
        }
      }
    } else {
      forall i | 0 <= i < |u| ensures u[i] == NEWLINE <==> Running(u[..i]) > 30 {
        if i < |t| {
          assert u[..i] == t[..i];
        } else {
          assert u[..i] == t;
        }
      }
    }
  }

  lemma StripSnoc(p: seq<string>, t: string)
    ensures (p + [t])[..|p|] == p
    ensures Strip(p + [t]) == Strip(p) + (if t == NEWLINE then [] else [t])
  {
  }

  /** A prefix of a well-broken token list is well broken. */
  lemma BreaksPrefix(ts: seq<string>, n: nat)
    requires n <= |ts| && Breaks(ts)
    ensures Breaks(ts[..n])
  {
    var p := ts[..n];
    forall i | 0 <= i < |p| ensures p[i] == NEWLINE <==> Running(p[..i]) > 30 {
      assert p[i] == ts[i] && p[..i] == ts[..i];
    }
  }

  /** The tokens before a well-placed break: a proper, well-broken list with more than thirty characters on its last line. */
  lemma BeforeBreak(p: seq<string>)
    requires p != [] && p[|p| - 1] == NEWLINE && Breaks(p)
    ensures Strip(p[..|p| - 1]) == Strip(p)
    ensures Running(p[..|p| - 1]) > 30 && Proper(p[..|p| - 1]) && Breaks(p[..|p| - 1])
  {
    var q := p[..|p| - 1];
    assert Running(q) > 30 by {
      assert p[..|q|] == q;
    }
    BreaksPrefix(p, |q|);
  }

  /** The properties of `LayoutProperties` admit no other token list: they characterise the layout. */
  lemma {:induction false} LayoutUnique(ws: seq<string>, ts: seq<string>)
    requires Strip(ts) == ws && Breaks(ts) && Proper(ts)
    ensures ts == Layout(ws)
    decreases |ts|
  {
    if ts != [] {
      var n := |ts| - 1;
      var p := ts[..n];
      var w := ts[n];
      assert ts == p + [w];
      StripSnoc(p, w);
      var ws' := Strip(p);
      assert ws == ws' + [w];
      assert ws[..|ws| - 1] == ws';
      BreaksPrefix(ts, n);
      if p != [] && p[|p| - 1] == NEWLINE {
        LayoutUniqueAfterBreak(ws', p, w);
      } else {
        LayoutUnique(ws', p);
        assert Running(p) <= 30 by {
          assert ts[..n] == p;
        }
        assert Layout(ws) == Step(Layout(ws'), w);
      }
    }
  }

  /** The case of `LayoutUnique` where the last word follows a break. */
  lemma {:induction false} LayoutUniqueAfterBreak(ws': seq<string>, p: seq<string>, w: string)
    requires p != [] && p[|p| - 1] == NEWLINE
    requires Strip(p) == ws' && Breaks(p)
    ensures p + [w] == Layout(ws' + [w])
    decreases |p| + 1, 0
  {
    var q := p[..|p| - 1];
    BeforeBreak(p);
    LayoutUnique(ws', q);
    var ws := ws' + [w];
    assert ws[..|ws| - 1] == ws';
    LastSplit(p, w);
  }

  lemma LastSplit(p: seq<string>, w: string)
    requires p != []
    ensures p + [w] == p[..|p| - 1] + [p[|p| - 1], w]
  {
    assert p == p[..|p| - 1] + [p[|p| - 1]];
  }

  /**
   * `split_string`: the words of the description joined by spaces, with a line-break token before
   * each word that comes once more than thirty characters are on the current line.
   */
  method SplitString(description: string) returns (r: string)
    ensures r == Join(" ", Layout(Words(description)))
    ensures Words(description) == [] ==> r == ""
  {
    var words := Words(description);
    WordsHaveNoBreakTokens(words);
    var lst: seq<string> := [];
    var chars := 0;
    for i := 0 to |words|
      invariant lst == Layout(words[..i])
      invariant chars == Running(lst)
    {
      var word := words[i];
      assert words[..i + 1][..i] == words[..i];
      RunningAppend(lst, word);
      if chars > 30 {
        lst := lst + [NEWLINE];
        chars := 0;
      }
      lst := lst + [word];
      chars := chars + |word|;
    }
    assert words[..|words|] == words;
    r := Join(" ", lst);
  }

  // ---------------------------------------------------------------------------------------------
  // Grouping widgets by category

  const MISCELLANEOUS: string := "org.cream.melange.CategoryMiscellaneous"

  /** The `categories` entry of a widget manifest: missing, `None`, or the listed category ids. */
  datatype Categories = Absent | Null | Listed(ids: seq<string>)

  datatype WidgetInfo = WidgetInfo(name: string, categories: Categories)

  /** `not widget.get('categories')` */
  predicate Falsy(c: Categories)
  {
    c.Absent? || c.Null? || (c.Listed? && c.ids == [])
  }

  /** The categories a widget is filed under: the miscellaneous one when it lists none. */
  function CategoriesOf(w: WidgetInfo): seq<string>
  {
    if Falsy(w.categories) then [MISCELLANEOUS] else w.categories.ids
  }

  function Lookup(g: map<string, seq<WidgetInfo>>, c: string): seq<WidgetInfo>
  {
    if c in g then g[c] else []
  }

  /** `_add_to_category` for each of `cs` in turn. */
  function Filed(g: map<string, seq<WidgetInfo>>, cs: seq<string>, w: WidgetInfo): map<string, seq<WidgetInfo>>
  {
    if cs == [] then g
    else
      var h := Filed(g, cs[..|cs| - 1], w);
      var c := cs[|cs| - 1];
      h[c := Lookup(h, c) + [w]]
  }

  /** The dialog's `widgets` map after the grouping loop has filed every widget. */
  function Grouping(ws: seq<WidgetInfo>): map<string, seq<WidgetInfo>>
  {
    if ws == [] then map[]
    else Filed(Grouping(ws[..|ws| - 1]), CategoriesOf(ws[|ws| - 1]), ws[|ws| - 1])
  }

  function Count(cs: seq<string>, c: string): nat
  {
    if cs == [] then 0 else Count(cs[..|cs| - 1], c) + (if cs[|cs| - 1] == c then 1 else 0)
  }

  function Repeat(w: WidgetInfo, k: nat): seq<WidgetInfo>
  {
    if k == 0 then [] else Repeat(w, k - 1) + [w]
  }

  /** The reference: the widgets that list `c`, in input order, each once per time it lists `c`. */
  function Members(ws: seq<WidgetInfo>, c: string): seq<WidgetInfo>
  {
    if ws == [] then []
    else Members(ws[..|ws| - 1], c) + Repeat(ws[|ws| - 1], Count(CategoriesOf(ws[|ws| - 1]), c))
  }

  lemma RepeatAppend(w: WidgetInfo, k: nat, l: seq<WidgetInfo>)
    ensures l + Repeat(w, k) + [w] == l + Repeat(w, k + 1)
  {
  }

  lemma {:induction false} CountIn(cs: seq<string>, c: string)
    ensures Count(cs, c) > 0 <==> c in cs
  {
    if cs != [] {
      var p := cs[..|cs| - 1];
      assert cs == p + [cs[|cs| - 1]];
      CountIn(p, c);
    }
  }

  /** Filing one widget under `cs` appends it to each listed category and changes no other one. */
  lemma {:induction false} FiledAt(g: map<string, seq<WidgetInfo>>, cs: seq<string>, w: WidgetInfo, c: string)
    ensures Lookup(Filed(g, cs, w), c) == Lookup(g, c) + Repeat(w, Count(cs, c))
    ensures c in Filed(g, cs, w) <==> c in g || c in cs
  {
    if cs != [] {
      var p := cs[..|cs| - 1];
      assert cs == p + [cs[|cs| - 1]];
      FiledAt(g, p, w, c);
      if cs[|cs| - 1] == c {
        RepeatAppend(w, Count(p, c), Lookup(g, c));
      }
    }
  }

  /**
   * After the grouping loop, each category holds exactly the widgets that list it, in their input
   * order (a widget listing a category twice appears twice), and a category is present exactly when
   * some widget is filed under it.
   */
  lemma {:induction false} GroupingMembers(ws: seq<WidgetInfo>, c: string)
    ensures Lookup(Grouping(ws), c) == Members(ws, c)
    ensures c in Grouping(ws) <==> FiledSomewhere(ws, c)
  {
    if ws != [] {
      var n := |ws| - 1;
      var p := ws[..n];
      GroupingMembers(p, c);
      FiledAt(Grouping(p), CategoriesOf(ws[n]), ws[n], c);
      FiledSomewhereSnoc(ws, c);
    }
  }

  /** Some widget of `ws` is filed under `c`. */
  predicate FiledSomewhere(ws: seq<WidgetInfo>, c: string)
  {
    exists i :: 0 <= i < |ws| && c in CategoriesOf(ws[i])
  }

  /** Some widget of `ws` is filed under `c` exactly when one before the last is, or the last one is. */
  lemma FiledSomewhereSnoc(ws: seq<WidgetInfo>, c: string)
    requires ws != []
    ensures FiledSomewhere(ws, c) <==> FiledSomewhere(ws[..|ws| - 1], c) || c in CategoriesOf(ws[|ws| - 1])
  {
    var n := |ws| - 1;
    var p := ws[..n];
    if FiledSomewhere(ws, c) {
      var i :| 0 <= i < |ws| && c in CategoriesOf(ws[i]);
      if i < n { assert p[i] == ws[i]; }
    }
    if FiledSomewhere(p, c) {
      var i :| 0 <= i < |p| && c in CategoriesOf(p[i]);
      assert ws[i] == p[i];
    }
  }

  /** A widget that lists no category at all is filed under the miscellaneous category only. */
  lemma UncategorisedIsMiscellaneous(g: map<string, seq<WidgetInfo>>, w: WidgetInfo)
    requires Falsy(w.categories)
    ensures Filed(g, CategoriesOf(w), w) == g[MISCELLANEOUS := Lookup(g, MISCELLANEOUS) + [w]]
  {
  }

  /**
   * The grouping loop as written: a widget whose `categories` entry is falsy is filed under the
   * miscellaneous category, and then `widget['categories']` is iterated, which raises `KeyError`
   * when the entry is missing and `TypeError` when it is `None`; either aborts the constructor.
   */
  function GroupingAsWritten(ws: seq<WidgetInfo>): Option<map<string, seq<WidgetInfo>>>
  {
    if ws == [] then Some(map[])
    else
      match GroupingAsWritten(ws[..|ws| - 1])
      case None => None
      case Some(g) =>
        var w := ws[|ws| - 1];
        var g' := if Falsy(w.categories) then Filed(g, [MISCELLANEOUS], w) else g;
        if w.categories.Absent? || w.categories.Null? then None
        else Some(Filed(g', w.categories.ids, w))
  }

  predicate Uncataloged(w: WidgetInfo)
  {
    w.categories.Absent? || w.categories.Null?
  }

  /**
   * The loop as written agrees with the corrected grouping, except that it fails outright as soon as
   * one widget has no `categories` entry or a `None` one.
   */
  lemma {:induction false} AsWrittenFailsOnMissingCategories(ws: seq<WidgetInfo>)
    ensures GroupingAsWritten(ws) ==
              if exists i :: 0 <= i < |ws| && Uncataloged(ws[i]) then None else Some(Grouping(ws))
  {
    if ws != [] {
      var n := |ws| - 1;
      var p := ws[..n];
      var w := ws[n];
      AsWrittenFailsOnMissingCategories(p);
      if exists i :: 0 <= i < |p| && Uncataloged(p[i]) {
        var i :| 0 <= i < |p| && Uncataloged(p[i]);
        assert ws[i] == p[i];
      } else {
        if !Uncataloged(w) {
          forall i | 0 <= i < |ws| ensures !Uncataloged(ws[i]) {
            if i < n { assert ws[i] == p[i]; }
          }
          if Falsy(w.categories) {
            assert w.categories.ids == [];
            assert [MISCELLANEOUS][..0] == [];
          }
        }
      }
    }
  }

  /** The input that shows it: one manifest without a `categories` entry. */
  lemma MissingCategoriesCounterexample()
    ensures GroupingAsWritten([WidgetInfo("clock", Absent)]) == None
    ensures Grouping([WidgetInfo("clock", Absent)]).Keys == {MISCELLANEOUS}
    ensures Grouping([WidgetInfo("clock", Absent)])[MISCELLANEOUS] == [WidgetInfo("clock", Absent)]
  {
    var ws := [WidgetInfo("clock", Absent)];
    assert ws[..0] == [];
    assert [MISCELLANEOUS][..0] == [];
    assert Grouping(ws[..0]) == map[];
    assert Lookup(map[], MISCELLANEOUS) == [];
    UncategorisedIsMiscellaneous(map[], ws[0]);
    assert CategoriesOf(ws[0]) == [MISCELLANEOUS];
    assert Grouping(ws) == Filed(map[], [MISCELLANEOUS], ws[0]);
  }

  /** The category-to-widgets map of `AddWidgetDialog`. */
  class AddWidgetDialog {
    var widgets: map<string, seq<WidgetInfo>>

    /**
     * The grouping loop of the constructor, with a missing or `None` `categories` entry treated like
     * an empty list (see `GroupingAsWritten` for the loop as written).
     */
    constructor (ws: seq<WidgetInfo>)
      ensures widgets == Grouping(ws)
    {
      widgets := map[];
      new;
      for i := 0 to |ws|
        invariant widgets == Grouping(ws[..i])
      {
        var w := ws[i];
        assert ws[..i + 1][..i] == ws[..i];
        ghost var g0 := widgets;
        if Falsy(w.categories) {
          AddToCategory(MISCELLANEOUS, w);
          assert widgets == Filed(g0, [MISCELLANEOUS], w) by {
            assert [MISCELLANEOUS][..0] == [];
          }
        }
        if w.categories.Listed? {
          var ids := w.categories.ids;
          ghost var g1 := widgets;
          for j := 0 to |ids|
            invariant widgets == Filed(g1, ids[..j], w)
          {
            assert ids[..j + 1][..j] == ids[..j];
            AddToCategory(ids[j], w);
          }
          assert ids[..|ids|] == ids;
        }
      }
      assert ws[..|ws|] == ws;
    }

    /** `_add_to_category`: appends the widget to the category's list, creating it if needed. */
    method AddToCategory(category: string, widget: WidgetInfo)
      modifies this
      ensures category in widgets
      ensures widgets[category] == Lookup(old(widgets), category) + [widget]
      ensures forall c :: c != category ==> (c in widgets <==> c in old(widgets))
      ensures forall c :: c != category && c in widgets ==> widgets[c] == old(widgets)[c]
      ensures widgets == old(widgets)[category := Lookup(old(widgets), category) + [widget]]
    {
      if category in widgets {
        widgets := widgets[category := widgets[category] + [widget]];
      } else {
        widgets := widgets[category := [widget]];
      }
    }
  }
}
