/**
 * The two pieces of logic in the top bar (`src/components/layout/Navbar.tsx`):
 * the search box, which navigates to the results page with the trimmed,
 * URI-encoded query, and the avatar fallback, which shows the initials of
 * the user name.
 */
module Navbar {
  import opened Wrappers
  import opened Http
  import opened Text
  import Uri
  import Session

  /** The results route, up to the query value. */
  const SearchPrefix := "/search?q="
  /** The avatar fallback when the user has no name. */
  const FallbackInitial := "U"

  // ---------------------------------------------------------------------
  // Search
  // ---------------------------------------------------------------------

  /**
   * Submitting the search form: a query that is blank after trimming does
   * nothing; any other query navigates to the results page with the
   * trimmed query, encoded, as `q`.
   */
  function Search(query: string): (r: seq<Effect>)
    ensures |r| <= 1
    ensures r == [] <==> IsBlank(query)
    ensures r != [] ==> r == [Navigate(SearchPrefix + Uri.Encode(Trim(query)))]
  {
    TrimEmptyIffBlank(query);
    var q := Trim(query);
    if q != [] then [Navigate(SearchPrefix + Uri.Encode(q))] else []
  }

  /**
   * The results page gets the trimmed query back: the value after `q=`
   * holds no `&`, `#` or `=` and decodes to the trimmed query.
   */
  lemma SearchCarriesTrimmedQuery(query: string)
    requires !IsBlank(query)
    ensures |Search(query)[0].path| >= |SearchPrefix|
    ensures Search(query)[0].path[..|SearchPrefix|] == SearchPrefix
    ensures Uri.Decode(Search(query)[0].path[|SearchPrefix|..]) == Some(Trim(query))
    ensures forall k :: |SearchPrefix| <= k < |Search(query)[0].path| ==>
      Uri.QuerySafe(Search(query)[0].path[k])
  {
    var value := Uri.Encode(Trim(query));
    var path := SearchPrefix + value;
    assert path[|SearchPrefix|..] == value;
    Uri.DecodeEncode(Trim(query));
    Uri.EncodeIsSafe(Trim(query));
    forall k | |SearchPrefix| <= k < |path|
      ensures Uri.QuerySafe(path[k])
    {
      assert path[k] == value[k - |SearchPrefix|];
    }
  }

  /** Surrounding white space never changes where a search goes. */
  lemma SearchIgnoresSurroundingSpace(query: string)
    ensures Search(Trim(query)) == Search(query)
  {
    TrimIdempotent(query);
    TrimEmptyIffBlank(query);
    TrimEmptyIffBlank(Trim(query));
  }

  // ---------------------------------------------------------------------
  // Initials
  // ---------------------------------------------------------------------

  /**
   * `parts.map(part => part[0]).join('')`: the first character of every
   * piece; an empty piece gives `undefined`, which `join` writes as
   * nothing.
   */
  function FirstChars(parts: seq<string>): (r: string)
    ensures |r| <= |parts|
  {
    if |parts| == 0 then []
    else (if |parts[0]| > 0 then [parts[0][0]] else []) + FirstChars(parts[1..])
  }

  /**
   * The characters that begin a word, found by a left-to-right scan:
   * a non-space character is a word start when the character before it
   * is a space, or when it is first and `afterSpace` holds.
   */
  function WordStarts(s: string, afterSpace: bool): (r: string)
    ensures |r| <= |s|
    ensures ' ' !in r
  {
    if |s| == 0 then []
    else (if s[0] != ' ' && afterSpace then [s[0]] else []) + WordStarts(s[1..], s[0] == ' ')
  }

  /**
   * The first characters of the pieces of `s.split(' ')` are exactly the
   * word starts; when the scan does not begin after a space, it misses
   * just the first piece's.
   */
  lemma {:induction false} FirstCharsOfSplit(s: string)
    ensures FirstChars(Split(s, ' ')) == WordStarts(s, true)
    ensures FirstChars(Split(s, ' ')[1..]) == WordStarts(s, false)
  {
    if |s| > 0 {
      var rest := Split(s[1..], ' ');
      FirstCharsOfSplit(s[1..]);
      if s[0] == ' ' {
        assert Split(s, ' ') == [""] + rest;
        assert (["", ""] + rest)[1..] == [""] + rest;
      } else {
        var parts := [[s[0]] + rest[0]] + rest[1..];
        assert Split(s, ' ') == parts;
        assert parts[1..] == rest[1..];
      }
    }
  }

  /**
   * `getInitials`: the first character of every `' '`-separated piece,
   * upper-cased, keeping at most two.
   */
  function Initials(name: string): (r: string)
    ensures |r| <= 2
  {
    var joined := ToUpper(FirstChars(Split(name, ' ')));
    if |joined| <= 2 then joined else joined[..2]
  }

  /**
   * The initials are the upper-cased starts of the first two words of the
   * name, whatever runs of spaces separate them.
   */
  lemma InitialsAreWordStarts(name: string)
    ensures var starts := WordStarts(name, true);
      Initials(name) == ToUpper(if |starts| <= 2 then starts else starts[..2])
  {
    FirstCharsOfSplit(name);
    var starts := WordStarts(name, true);
    if |starts| > 2 {
      assert ToUpper(starts)[..2] == ToUpper(starts[..2]);
    }
  }

  /** The avatar fallback: the user's initials, or `U` without a user name. */
  function AvatarFallback(user: Option<Session.User>): (r: string)
    ensures |r| <= 2
    ensures (user.None? || user.value.userName == "") ==> r == FallbackInitial
    ensures user.Some? && user.value.userName != "" ==> r == Initials(user.value.userName)
  {
    if user.Some? && user.value.userName != "" then Initials(user.value.userName) else FallbackInitial
  }
}
