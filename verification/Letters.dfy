/** Characters by name, so that what the text layer does with them can be said
    without its own functions. */
module Letters {
  ghost predicate CapitalOf(small: char, capital: char) {
    exists i: nat :: i < 26 &&
      "abcdefghijklmnopqrstuvwxyz"[i] == small && "ABCDEFGHIJKLMNOPQRSTUVWXYZ"[i] == capital
  }

  /** `q` is `p` with some small letters replaced by their capitals. */
  ghost predicate SameButCase(p: string, q: string) {
    |p| == |q| && forall i :: 0 <= i < |p| ==> q[i] == p[i] || CapitalOf(p[i], q[i])
  }

  /** White space and line terminators in the sense of ECMA-262. */
  ghost predicate WhiteChar(c: char) {
    c in "\t\n\U{000B}\U{000C}\r \U{00A0}\U{1680}\U{2000}\U{2001}\U{2002}\U{2003}\U{2004}\U{2005}\U{2006}"
      || c in "\U{2007}\U{2008}\U{2009}\U{200A}\U{2028}\U{2029}\U{202F}\U{205F}\U{3000}\U{FEFF}"
  }

  ghost predicate White(w: string) {
    forall i :: 0 <= i < |w| ==> WhiteChar(w[i])
  }

  lemma SmallAt(i: nat)
    requires i < 26
    ensures "abcdefghijklmnopqrstuvwxyz"[i] as int == 'a' as int + i
  {
  }

  lemma CapitalAt(i: nat)
    requires i < 26
    ensures "ABCDEFGHIJKLMNOPQRSTUVWXYZ"[i] as int == 'A' as int + i
  {
  }

  /** The small letters and the capitals lie 32 apart. */
  lemma CapitalIs(small: char, capital: char)
    ensures CapitalOf(small, capital) <==> 'a' <= small <= 'z' && small as int == capital as int + 32
  {
    if 'a' <= small <= 'z' && small as int == capital as int + 32 {
      var i := small as int - 'a' as int;
      SmallAt(i);
      CapitalAt(i);
    }
    if i: nat :| i < 26 && "abcdefghijklmnopqrstuvwxyz"[i] == small && "ABCDEFGHIJKLMNOPQRSTUVWXYZ"[i] == capital {
      SmallAt(i);
      CapitalAt(i);
    }
  }
}
