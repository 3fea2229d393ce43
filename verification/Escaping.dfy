// Plain-text streams undo the escaping that `clean_text` applies, by five
// replacements in a fixed order. The ANSI stripper is a parameter; the escaper is
// taken to escape `&`, `<` and `>` and nothing else.
module Escaping {
  function Entity(c: char): string
    requires c in {'&', '<', '>'}
  {
    if c == '&' then "&amp;" else if c == '<' then "&lt;" else "&gt;"
  }

  // Every occurrence of the characters in `escaped` spelled as its entity.
  function Encoded(s: string, escaped: set<char>): string
    requires escaped <= {'&', '<', '>'}
  {
    if s == "" then ""
    else (if s[0] in escaped then Entity(s[0]) else [s[0]]) + Encoded(s[1..], escaped)
  }

  function EncodeText(s: string): string {
    Encoded(s, {'&', '<', '>'})
  }

  // Leftmost occurrences first, never overlapping.
  function Replace(s: string, pattern: string, with: string): string
    requires pattern != ""
    decreases |s|
  {
    if |s| < |pattern| then s
    else if s[..|pattern|] == pattern then with + Replace(s[|pattern|..], pattern, with)
    else [s[0]] + Replace(s[1..], pattern, with)
  }

  function CleanText(s: string, stripAnsi: string -> string): string {
    EncodeText(stripAnsi(s))
  }

  function StripAnsiOnly(s: string, stripAnsi: string -> string): string {
    var cleaned := CleanText(s, stripAnsi);
    var a := Replace(cleaned, "&lt;", "<");
    var b := Replace(a, "&gt;", ">");
    var c := Replace(b, "&quot;", "\"");
    var d := Replace(c, "&#39;", "'");
    Replace(d, "&amp;", "&")
  }

  // ---- replacing in escaped text -----------------------------------------------

  // A pattern that begins with an ampersand passes over text without one.
  lemma {:induction false} PassPlain(plain: string, rest: string, pattern: string, with: string)
    requires '&' !in plain && |pattern| > 0 && pattern[0] == '&'
    ensures Replace(plain + rest, pattern, with) == plain + Replace(rest, pattern, with)
  {
    if plain == "" {
      assert plain + rest == rest;
    } else {
      var next := plain[1..] + rest;
      assert plain + rest == [plain[0]] + next;
      PassPlain(plain[1..], rest, pattern, with);
      PassOne(plain[0], next, pattern, with);
      hide Replace;
      assert [plain[0]] + (plain[1..] + Replace(rest, pattern, with)) == plain + Replace(rest, pattern, with);
    }
  }

  lemma PassOne(c: char, rest: string, pattern: string, with: string)
    requires pattern != "" && c != pattern[0]
    ensures Replace([c] + rest, pattern, with) == [c] + Replace(rest, pattern, with)
  {
  }

  // It passes over an entity with a different second character.
  lemma PassEntity(entity: string, rest: string, pattern: string, with: string)
    requires |entity| >= 2 && entity[0] == '&' && '&' !in entity[1..]
    requires |pattern| >= 2 && pattern[0] == '&' && pattern[1] != entity[1]
    ensures Replace(entity + rest, pattern, with) == entity + Replace(rest, pattern, with)
  {
    var text := entity + rest;
    assert text[1] == entity[1] && text[1..] == entity[1..] + rest;
    PassPlain(entity[1..], rest, pattern, with);
    assert entity == [entity[0]] + entity[1..];
  }

  lemma Hit(pattern: string, rest: string, with: string)
    requires pattern != ""
    ensures Replace(pattern + rest, pattern, with) == with + Replace(rest, pattern, with)
  {
  }

  // Replacing one entity in text where every ampersand is escaped: exactly that
  // character becomes plain again.
  lemma {:induction false} UndoOne(s: string, escaped: set<char>, c: char)
    requires {'&', c} <= escaped <= {'&', '<', '>'}
    ensures Replace(Encoded(s, escaped), Entity(c), [c]) == Encoded(s, escaped - {c})
  {
    if s == "" {
    } else {
      var rest := Encoded(s[1..], escaped);
      UndoOne(s[1..], escaped, c);
      if s[0] == c {
        Hit(Entity(c), rest, [c]);
      } else if s[0] in escaped {
        PassEntity(Entity(s[0]), rest, Entity(c), [c]);
      } else {
        PassPlain([s[0]], rest, Entity(c), [c]);
      }
    }
  }

  // The entities the escaper never writes are not found.
  lemma {:induction false} UndoNone(s: string, pattern: string, with: string)
    requires |pattern| >= 2 && pattern[0] == '&' && pattern[1] != 'a'
    ensures Replace(Encoded(s, {'&'}), pattern, with) == Encoded(s, {'&'})
  {
    if s == "" {
    } else {
      var rest := Encoded(s[1..], {'&'});
      UndoNone(s[1..], pattern, with);
      if s[0] == '&' {
        PassEntity("&amp;", rest, pattern, with);
      } else {
        PassPlain([s[0]], rest, pattern, with);
      }
    }
  }

  lemma {:induction false} EncodedNone(s: string)
    ensures Encoded(s, {}) == s
  {
    if s == "" {
    } else {
      EncodedNone(s[1..]);
      assert s == [s[0]] + s[1..];
    }
  }

  // The round trip, for every input, entities in it included.
  lemma StripAnsiOnlyStripsOnly(s: string, stripAnsi: string -> string)
    ensures StripAnsiOnly(s, stripAnsi) == stripAnsi(s)
  {
    var u := stripAnsi(s);
    hide Replace, Encoded;
    UndoOne(u, {'&', '<', '>'}, '<');
    assert {'&', '<', '>'} - {'<'} == {'&', '>'};
    UndoOne(u, {'&', '>'}, '>');
    assert {'&', '>'} - {'>'} == {'&'};
    UndoNone(u, "&quot;", "\"");
    UndoNone(u, "&#39;", "'");
    UndoOne(u, {'&'}, '&');
    assert {'&'} - {'&'} == {};
    EncodedNone(u);
  }

  // The order is what makes it one: with the ampersand first, a stream that
  // printed an entity would show the character instead.
  lemma AmpersandFirstIsWrong()
    ensures Replace(Replace(EncodeText("&lt;"), "&amp;", "&"), "&lt;", "<") == "<"
  {
    UndoOne("&lt;", {'&', '<', '>'}, '&');
    assert Encoded("&lt;", {'<', '>'}) == "&lt;" by {
      var s := "&lt;";
      assert s[1..] == "lt;" && s[1..][1..] == "t;" && s[1..][1..][1..] == ";";
      EncodedNone(";");
    }
    assert {'&', '<', '>'} - {'&'} == {'<', '>'};
    Hit("&lt;", "", "<");
  }
}
