/** The language catalog of the voice converter window: the ordered table
    of (display name, language code) pairs that fills the language
    dropdown, and the lookup `start_recording` performs on the dropdown's
    current text (main.py:67-130, 171).

    The table is one dictionary literal in the source. Here it is written
    as the sentinel entry followed by four runs of entries, split where the
    first letter of the code moves to a new band (a-e, f-k, l-r, s-z), so
    that the distinctness of the codes can be proved band by band. */
module LanguageCatalog {

  type Entry = (string, string)

  /** Display name of the placeholder entry, the first item of the dropdown. */
  const Sentinel: string := "Select Language"

  /** main.py:70-82: codes starting with a letter from 'a' to 'e'. */
  const BandAtoE: seq<Entry> := [
    ("Afrikaans", "af"), ("Arabic", "ar"), ("Bulgarian", "bg"), ("Bengali", "bn"),
    ("Bosnian", "bs"), ("Catalan", "ca"), ("Czech", "cs"), ("Danish", "da"),
    ("German", "de"), ("Greek", "el"), ("English", "en"), ("Spanish", "es"),
    ("Estonian", "et")
  ]

  /** main.py:83-97: codes starting with a letter from 'f' to 'k'. */
  const BandFtoK: seq<Entry> := [
    ("Finnish", "fi"), ("French", "fr"), ("Gujarati", "gu"), ("Hindi", "hi"),
    ("Croatian", "hr"), ("Hungarian", "hu"), ("Indonesian", "id"), ("Icelandic", "is"),
    ("Italian", "it"), ("Hebrew", "iw"), ("Japanese", "ja"), ("Javanese", "jw"),
    ("Khmer", "km"), ("Kannada", "kn"), ("Korean", "ko")
  ]

  /** main.py:98-110: codes starting with a letter from 'l' to 'r'. */
  const BandLtoR: seq<Entry> := [
    ("Latin", "la"), ("Latvian", "lv"), ("Malayalam", "ml"), ("Marathi", "mr"),
    ("Malay", "ms"), ("Myanmar (Burmese)", "my"), ("Nepali", "ne"), ("Dutch", "nl"),
    ("Norwegian", "no"), ("Polish", "pl"), ("Portuguese", "pt"), ("Romanian", "ro"),
    ("Russian", "ru")
  ]

  /** main.py:111-128: codes starting with a letter from 's' to 'z'. */
  const BandStoZ: seq<Entry> := [
    ("Sinhala", "si"), ("Slovak", "sk"), ("Albanian", "sq"), ("Serbian", "sr"),
    ("Sundanese", "su"), ("Swedish", "sv"), ("Swahili", "sw"), ("Tamil", "ta"),
    ("Telugu", "te"), ("Thai", "th"), ("Filipino", "tl"), ("Turkish", "tr"),
    ("Ukrainian", "uk"), ("Urdu", "ur"), ("Vietnamese", "vi"),
    ("Chinese (Simplified)", "zh-CN"), ("Chinese (Mandarin/Taiwan)", "zh-TW"),
    ("Chinese (Mandarin)", "zh")
  ]

  /** The table after the placeholder, band after band. */
  const Bands: seq<Entry> := BandAtoE + BandFtoK + BandLtoR + BandStoZ

  /** The whole table, in the order of the dictionary literal. */
  const Entries: seq<Entry> := [(Sentinel, "")] + Bands

  /** The items of the dropdown: the dictionary's keys in insertion order
      (main.py:130). The first item is the placeholder, and no item is
      listed twice, so the items are exactly the keys, each once. */
  function Names(): (names: seq<string>)
    ensures |names| == |Entries|
    ensures forall i :: 0 <= i < |names| ==> names[i] == Entries[i].0
    ensures names[0] == Sentinel
    ensures forall i, j :: 0 <= i < j < |names| ==> names[i] != names[j]
  {
    EntryNamesDistinct();
    seq(|Entries|, i requires 0 <= i < |Entries| => Entries[i].0)
  }

  /** The dictionary a Python literal with these entries builds: every name
      becomes a key, and a key's value is listed beside it in some entry. */
  function ToMap(entries: seq<Entry>): (m: map<string, string>)
    ensures m.Keys == set i | 0 <= i < |entries| :: entries[i].0
    ensures forall k :: k in m ==> exists i :: 0 <= i < |entries| && entries[i] == (k, m[k])
  {
    if entries == [] then map[]
    else
      var last := entries[|entries| - 1];
      ToMap(entries[..|entries| - 1])[last.0 := last.1]
  }

  /** A repeated key keeps the value of its last entry: the value of a name
      that no later entry repeats is the one listed beside it. */
  lemma {:induction false} LastEntryWins(entries: seq<Entry>, i: nat)
    requires i < |entries|
    requires forall j :: i < j < |entries| ==> entries[j].0 != entries[i].0
    ensures entries[i].0 in ToMap(entries) && ToMap(entries)[entries[i].0] == entries[i].1
    decreases |entries|
  {
    var n := |entries| - 1;
    var prefix := entries[..n];
    assert ToMap(entries) == ToMap(prefix)[entries[n].0 := entries[n].1];
    if i < n {
      assert prefix[i] == entries[i];
      forall j | i < j < |prefix| ensures prefix[j].0 != prefix[i].0 {
        assert prefix[j] == entries[j];
      }
      LastEntryWins(prefix, i);
    }
  }

  /** `language_dict` (main.py:67-129). */
  function Catalog(): map<string, string>
  {
    ToMap(Entries)
  }

  /** The catalog's keys are the dropdown's items, every listed name maps to
      the code listed beside it, and the only key with the empty code is the
      placeholder. */
  lemma CatalogFacts()
    ensures forall name :: name in Catalog() <==> name in Names()
    ensures forall i :: 0 <= i < |Entries| ==> Entries[i].0 in Catalog() && Catalog()[Entries[i].0] == Entries[i].1
    ensures forall name :: name in Catalog() ==> (Catalog()[name] == "" <==> name == Sentinel)
  {
    EntriesWellFormed();
    var names := Names();
    forall i | 0 <= i < |Entries|
      ensures Entries[i].0 in Catalog() && Catalog()[Entries[i].0] == Entries[i].1
    {
      forall j | i < j < |Entries| ensures Entries[j].0 != Entries[i].0 {
        assert names[i] != names[j];
      }
      LastEntryWins(Entries, i);
    }
    forall name ensures name in Catalog() <==> name in names {
      if name in names {
        var i :| 0 <= i < |names| && names[i] == name;
        assert Entries[i].0 == name;
      }
      if name in Catalog() {
        var i :| 0 <= i < |Entries| && Entries[i] == (name, Catalog()[name]);
        assert names[i] == name;
      }
    }
    forall name | name in Catalog() ensures Catalog()[name] == "" <==> name == Sentinel {
      var i :| 0 <= i < |Entries| && Entries[i] == (name, Catalog()[name]);
    }
  }

  /** `language_dict.get(text, "")` (main.py:171): the code listed beside a
      catalog name, and "" exactly for the placeholder and for any text that
      is not a key. */
  function Lookup(name: string): (code: string)
    ensures code == "" <==> name == Sentinel || name !in Catalog()
    ensures forall i :: 0 <= i < |Entries| && Entries[i].0 == name ==> code == Entries[i].1
  {
    CatalogFacts();
    if name in Catalog() then Catalog()[name] else ""
  }

  // ---------------------------------------------------------------------
  // Shape of the table

  /** Every code of `entries` is non-empty and starts with a letter in `lo..hi`. */
  ghost predicate CodesStartWithin(entries: seq<Entry>, lo: char, hi: char)
  {
    forall i :: 0 <= i < |entries| ==> |entries[i].1| > 0 && lo <= entries[i].1[0] <= hi
  }

  /** No two entries of `entries` share a code. */
  ghost predicate CodesDistinct(entries: seq<Entry>)
  {
    forall i, j :: 0 <= i < j < |entries| ==> entries[i].1 != entries[j].1
  }

  /** No entry of `entries` is named like the sentinel. */
  ghost predicate AvoidsSentinel(entries: seq<Entry>)
  {
    forall i :: 0 <= i < |entries| ==> entries[i].0 != Sentinel
  }

  /** No two entries of `entries` share a name. */
  ghost predicate NamesDistinct(entries: seq<Entry>)
  {
    forall i, j :: 0 <= i < j < |entries| ==> entries[i].0 != entries[j].0
  }

  /** No entry of `a` shares its name with an entry of `b`. */
  ghost predicate NamesApart(a: seq<Entry>, b: seq<Entry>)
  {
    forall i, j :: 0 <= i < |a| && 0 <= j < |b| ==> a[i].0 != b[j].0
  }

  /** Each band on its own: codes in the band's letters, no entry named
      like the sentinel, no code listed twice and no name listed twice. */
  lemma BandAtoECodes()
    ensures CodesStartWithin(BandAtoE, 'a', 'e') && AvoidsSentinel(BandAtoE)
  {
  }

  lemma BandAtoEDistinct()
    ensures CodesDistinct(BandAtoE)
  {
  }

  lemma BandAtoENames()
    ensures NamesDistinct(BandAtoE)
  {
  }

  lemma BandFtoKCodes()
    ensures CodesStartWithin(BandFtoK, 'f', 'k') && AvoidsSentinel(BandFtoK)
  {
  }

  lemma BandFtoKDistinct()
    ensures CodesDistinct(BandFtoK)
  {
  }

  lemma BandFtoKNames()
    ensures NamesDistinct(BandFtoK)
  {
  }

  lemma BandLtoRCodes()
    ensures CodesStartWithin(BandLtoR, 'l', 'r') && AvoidsSentinel(BandLtoR)
  {
  }

  lemma BandLtoRDistinct()
    ensures CodesDistinct(BandLtoR)
  {
  }

  lemma BandLtoRNames()
    ensures NamesDistinct(BandLtoR)
  {
  }

  lemma BandStoZCodes()
    ensures CodesStartWithin(BandStoZ, 's', 'z') && AvoidsSentinel(BandStoZ)
  {
  }

  lemma BandStoZDistinct()
    ensures CodesDistinct(BandStoZ)
  {
  }

  lemma BandStoZNames()
    ensures NamesDistinct(BandStoZ)
  {
  }

  /** The bands share no names, pair by pair. */
  lemma AtoEApartFromFtoK()
    ensures NamesApart(BandAtoE, BandFtoK)
  {
  }

  lemma AtoEApartFromLtoR()
    ensures NamesApart(BandAtoE, BandLtoR)
  {
  }

  lemma AtoEApartFromStoZ()
    ensures NamesApart(BandAtoE, BandStoZ)
  {
  }

  lemma FtoKApartFromLtoR()
    ensures NamesApart(BandFtoK, BandLtoR)
  {
  }

  lemma FtoKApartFromStoZ()
    ensures NamesApart(BandFtoK, BandStoZ)
  {
  }

  lemma LtoRApartFromStoZ()
    ensures NamesApart(BandLtoR, BandStoZ)
  {
  }

  /** Two runs whose codes lie in disjoint, ordered letter bands join into
      one run with distinct codes. */
  lemma JoinBands(a: seq<Entry>, b: seq<Entry>, loA: char, hiA: char, loB: char, hiB: char)
    requires CodesStartWithin(a, loA, hiA) && CodesDistinct(a) && AvoidsSentinel(a)
    requires CodesStartWithin(b, loB, hiB) && CodesDistinct(b) && AvoidsSentinel(b)
    requires loA <= hiA < loB <= hiB
    ensures CodesStartWithin(a + b, loA, hiB) && CodesDistinct(a + b) && AvoidsSentinel(a + b)
  {
    var ab := a + b;
    forall i | 0 <= i < |ab|
      ensures |ab[i].1| > 0 && loA <= ab[i].1[0] <= hiB && ab[i].0 != Sentinel
    {
      if i < |a| {
        assert ab[i] == a[i];
      } else {
        assert ab[i] == b[i - |a|];
      }
    }
    forall i, j | 0 <= i < j < |ab| ensures ab[i].1 != ab[j].1 {
      if j < |a| {
        assert ab[i] == a[i] && ab[j] == a[j];
      } else if |a| <= i {
        assert ab[i] == b[i - |a|] && ab[j] == b[j - |a|];
      } else {
        assert ab[i] == a[i] && ab[j] == b[j - |a|];
        assert ab[i].1[0] <= hiA < ab[j].1[0];
      }
    }
  }

  /** Two runs with distinct names that share no name join into one run
      with distinct names. */
  lemma JoinNames(a: seq<Entry>, b: seq<Entry>)
    requires NamesDistinct(a) && NamesDistinct(b) && NamesApart(a, b)
    ensures NamesDistinct(a + b)
  {
    var ab := a + b;
    forall i, j | 0 <= i < j < |ab| ensures ab[i].0 != ab[j].0 {
      if j < |a| {
        assert ab[i] == a[i] && ab[j] == a[j];
      } else if |a| <= i {
        assert ab[i] == b[i - |a|] && ab[j] == b[j - |a|];
      } else {
        assert ab[i] == a[i] && ab[j] == b[j - |a|];
      }
    }
  }

  /** Two runs that each share no name with `c` make one run that shares no
      name with `c`. */
  lemma ApartConcat(a: seq<Entry>, b: seq<Entry>, c: seq<Entry>)
    requires NamesApart(a, c) && NamesApart(b, c)
    ensures NamesApart(a + b, c)
  {
    var ab := a + b;
    forall i, j | 0 <= i < |ab| && 0 <= j < |c| ensures ab[i].0 != c[j].0 {
      if i < |a| {
        assert ab[i] == a[i];
      } else {
        assert ab[i] == b[i - |a|];
      }
    }
  }

  /** The bands together: every code non-empty, no code listed twice and
      no entry named like the placeholder. */
  lemma BandsWellFormed()
    ensures |Bands| == 59
    ensures CodesStartWithin(Bands, 'a', 'z') && CodesDistinct(Bands) && AvoidsSentinel(Bands)
  {
    BandAtoECodes();
    BandAtoEDistinct();
    BandFtoKCodes();
    BandFtoKDistinct();
    BandLtoRCodes();
    BandLtoRDistinct();
    BandStoZCodes();
    BandStoZDistinct();
    JoinBands(BandAtoE, BandFtoK, 'a', 'e', 'f', 'k');
    JoinBands(BandAtoE + BandFtoK, BandLtoR, 'a', 'k', 'l', 'r');
    JoinBands(BandAtoE + BandFtoK + BandLtoR, BandStoZ, 'a', 'r', 's', 'z');
  }

  /** The table's codes: the sentinel comes first with the empty code, no
      other entry carries its name, every other code is non-empty, and all
      codes are pairwise distinct. */
  lemma EntriesWellFormed()
    ensures |Entries| == 60
    ensures Entries[0] == (Sentinel, "")
    ensures forall i :: 1 <= i < |Entries| ==> Entries[i].0 != Sentinel && Entries[i].1 != ""
    ensures CodesDistinct(Entries)
  {
    BandsWellFormed();
    forall i | 1 <= i < |Entries| ensures Entries[i].0 != Sentinel && Entries[i].1 != "" {
      assert Entries[i] == Bands[i - 1];
    }
    forall i, j | 0 <= i < j < |Entries| ensures Entries[i].1 != Entries[j].1 {
      assert Entries[j] == Bands[j - 1];
      if 0 < i {
        assert Entries[i] == Bands[i - 1];
      }
    }
  }

  /** The table's names: no name is listed twice, so the dictionary keeps
      every entry and the dropdown lists every key once. */
  lemma EntryNamesDistinct()
    ensures NamesDistinct(Entries)
  {
    BandAtoENames();
    BandFtoKNames();
    BandLtoRNames();
    BandStoZNames();
    AtoEApartFromFtoK();
    AtoEApartFromLtoR();
    AtoEApartFromStoZ();
    FtoKApartFromLtoR();
    FtoKApartFromStoZ();
    LtoRApartFromStoZ();
    JoinNames(BandAtoE, BandFtoK);
    ApartConcat(BandAtoE, BandFtoK, BandLtoR);
    JoinNames(BandAtoE + BandFtoK, BandLtoR);
    ApartConcat(BandAtoE, BandFtoK, BandStoZ);
    ApartConcat(BandAtoE + BandFtoK, BandLtoR, BandStoZ);
    JoinNames(BandAtoE + BandFtoK + BandLtoR, BandStoZ);
    BandsWellFormed();
    forall i, j | 0 <= i < j < |Entries| ensures Entries[i].0 != Entries[j].0 {
      assert Entries[j] == Bands[j - 1];
      if 0 < i {
        assert Entries[i] == Bands[i - 1];
      }
    }
  }

  // ---------------------------------------------------------------------
  // Properties of the lookup

  /** Different names never share a non-empty code: the lookup is injective
      on the names it does not send to "". */
  lemma LookupInjective(a: string, b: string)
    requires Lookup(a) != ""
    requires Lookup(a) == Lookup(b)
    ensures a == b
  {
    CatalogFacts();
    var names := Names();
    assert a in names && b in names;
    var i :| 0 <= i < |names| && names[i] == a;
    var j :| 0 <= j < |names| && names[j] == b;
    assert Entries[i].1 == Lookup(a) && Entries[j].1 == Lookup(b);
    EntriesWellFormed();
    assert i == j;
  }
}
