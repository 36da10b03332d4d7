/**
  Color records as the remote store returns them, and the pure helpers the
  palette component applies to them: `#`-prefix normalisation of a typed code,
  lookup of a record by its identifier (`colors.find`) and the duplicate hint
  (`colors.some`).
 */
module Colors {

  datatype Option<+T> = None | Some(value: T)

  /** One document of the collection. The store may omit `name` and `category`. */
  datatype ColorRecord = ColorRecord(id: string, color: string, name: Option<string>, category: Option<string>)

  /** The fallback `field || ''`: an absent field reads as the empty string. */
  function OrEmpty(field: Option<string>): string
  {
    match field
    case Some(text) => text
    case None => ""
  }

  /** `code.startsWith('#')` */
  predicate HasHashPrefix(code: string)
  {
    |code| > 0 && code[0] == '#'
  }

  /**
    The code that is sent to the store for a typed code: unchanged when it
    already starts with `#`, otherwise with `#` put in front. No hex format is
    checked, so the empty input becomes "#".
   */
  function Normalize(code: string): (r: string)
    ensures HasHashPrefix(r)
    ensures r == code || r == "#" + code
    ensures r == code <==> HasHashPrefix(code)
  {
    if HasHashPrefix(code) then code else "#" + code
  }

  lemma NormalizeIdempotent(code: string)
    ensures Normalize(Normalize(code)) == Normalize(code)
  {
  }

  /** Only the leading `#` is added: what follows it is the typed text. */
  lemma NormalizeKeepsText(code: string)
    ensures !HasHashPrefix(code) ==> Normalize(code)[1..] == code
    ensures |Normalize(code)| == if HasHashPrefix(code) then |code| else |code| + 1
  {
  }

  lemma NormalizeExamples()
    ensures Normalize("ff0000") == "#ff0000"
    ensures Normalize("#ff0000") == "#ff0000"
    ensures Normalize("") == "#"
  {
  }

  predicate ContainsId(colors: seq<ColorRecord>, id: string)
  {
    exists i :: 0 <= i < |colors| && colors[i].id == id
  }

  /**
    `colors.find(c => c._id === id)`: the first record carrying `id`, or
    None (JavaScript's `undefined`) when no record does.
   */
  function Find(colors: seq<ColorRecord>, id: string): (r: Option<ColorRecord>)
    ensures r.None? <==> !ContainsId(colors, id)
    ensures r.Some? ==> exists i :: 0 <= i < |colors| && colors[i] == r.value && r.value.id == id
                                    && forall j :: 0 <= j < i ==> colors[j].id != id
  {
    if |colors| == 0 then None
    else if colors[0].id == id then Some(colors[0])
    else
      var rest := Find(colors[1..], id);
      assert ContainsId(colors, id) ==> ContainsId(colors[1..], id) by {
        if ContainsId(colors, id) {
          var i :| 0 <= i < |colors| && colors[i].id == id;
          assert colors[1..][i - 1].id == id;
        }
      }
      if rest.Some? then
        ghost var k :| 0 <= k < |colors[1..]| && colors[1..][k] == rest.value && rest.value.id == id
                        && forall j :: 0 <= j < k ==> colors[1..][j].id != id;
        assert colors[k + 1] == rest.value;
        assert forall j :: 0 <= j < k + 1 ==> colors[j].id != id by {
          forall j | 0 <= j < k + 1 ensures colors[j].id != id {
            if j > 0 { assert colors[j] == colors[1..][j - 1]; }
          }
        }
        rest
      else
        rest
  }

  /** A record that `Find` returns is a member of the list with the id asked for. */
  lemma FindFound(colors: seq<ColorRecord>, id: string)
    requires ContainsId(colors, id)
    ensures Find(colors, id).Some? && Find(colors, id).value in colors && Find(colors, id).value.id == id
  {
  }

  /**
    `colors.some(c => c.color === input)`, the header's duplicate hint. It
    compares against the raw input, before normalisation.
   */
  function IsDuplicate(colors: seq<ColorRecord>, input: string): (b: bool)
    ensures b <==> exists i :: 0 <= i < |colors| && colors[i].color == input
  {
    if |colors| == 0 then false
    else if colors[0].color == input then true
    else
      var rest := IsDuplicate(colors[1..], input);
      assert rest ==> exists i :: 0 <= i < |colors| && colors[i].color == input by {
        if rest {
          var k :| 0 <= k < |colors[1..]| && colors[1..][k].color == input;
          assert colors[k + 1].color == input;
        }
      }
      assert (exists i :: 0 <= i < |colors| && colors[i].color == input) ==> rest by {
        if exists i :: 0 <= i < |colors| && colors[i].color == input {
          var i :| 0 <= i < |colors| && colors[i].color == input;
          assert colors[1..][i - 1].color == input;
        }
      }
      rest
  }

  /**
    The hint is not flagged for a code typed without `#` even though the
    stored code is the normalised form of that input.
   */
  lemma DuplicateHintIgnoresNormalization()
    ensures var colors := [ColorRecord("1", "#ff0000", None, None)];
            !IsDuplicate(colors, "ff0000") && IsDuplicate(colors, Normalize("ff0000"))
  {
  }
}
