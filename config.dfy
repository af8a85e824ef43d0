/**
 * The settings read from the environment at import time: the three integer
 * knobs of the search and the comma-separated `INDEX_CHANNELS` list.
 * The environment is a parameter: `None` is an unset variable.
 */
module Config {
  import opened Wrappers
  import opened PyText

  /** The default texts handed to `int()` when a variable is unset. */
  const TopKPerQueryDefault: string := "10"
  const NQueryAugDefault: string := "3"
  const MaxReturnDefault: string := "10"

  /**
   * `int(os.environ.get(NAME, default))`; `None` where `int()` raises. The
   * contract only says which text is parsed; `IntSettingDefaults`,
   * `IntSettingOverride` and `PyText.ParseIntToString` state the values.
   */
  function IntSetting(env: Option<string>, default: string): (r: Option<int>)
    ensures env.Some? ==> r == ParseInt(env.value)
    ensures env.None? ==> r == ParseInt(default)
  {
    ParseInt(env.GetOr(default))
  }

  /** Unset, the three integer settings are 10, 3 and 10. */
  lemma IntSettingDefaults()
    ensures IntSetting(None, TopKPerQueryDefault) == Some(10)
    ensures IntSetting(None, NQueryAugDefault) == Some(3)
    ensures IntSetting(None, MaxReturnDefault) == Some(10)
  {
    assert IntToString(10) == TopKPerQueryDefault by {
      assert Decimal(1) == "1";
    }
    assert IntToString(3) == NQueryAugDefault;
    ParseIntToString(10);
    ParseIntToString(3);
  }

  /** A variable set to the decimal text of `n` yields `n`, whatever the default. */
  lemma IntSettingOverride(n: int, default: string)
    ensures IntSetting(Some(IntToString(n)), default) == Some(n)
  {
    ParseIntToString(n);
  }

  /** A non-empty string with no surrounding whitespace and no comma: one channel entry. */
  predicate IsChannelEntry(c: string) {
    && c != []
    && c[0] !in Whitespace
    && c[|c| - 1] !in Whitespace
    && ',' !in c
  }

  /** No piece holds a comma, as is the case for the pieces of `split(",")`. */
  predicate CommaFree(parts: seq<string>) {
    forall j :: 0 <= j < |parts| ==> ',' !in parts[j]
  }

  /** `[c.strip() for c in parts if c.strip()]`, for pieces that hold no comma. */
  function KeepStripped(parts: seq<string>): (chans: seq<string>)
    requires CommaFree(parts)
    ensures |chans| <= |parts|
    ensures forall i :: 0 <= i < |chans| ==> IsChannelEntry(chans[i])
  {
    if parts == [] then []
    else
      var c := Strip(parts[0]);
      var rest := KeepStripped(parts[1..]);
      if c == [] then rest
      else
        assert ',' !in c by {
          assert c == parts[0][LeadingCount(parts[0], Whitespace)..LeadingCount(parts[0], Whitespace) + |c|];
          assert ',' !in parts[0];
        }
        [c] + rest
  }

  /** The `INDEX_CHANNELS` list: comma-separated, each entry stripped, empty entries dropped. */
  function ParseChannels(env: Option<string>): (chans: seq<string>)
    ensures forall i :: 0 <= i < |chans| ==> IsChannelEntry(chans[i])
  {
    KeepStripped(SplitOn(env.GetOr(""), ','))
  }

  /** Unset or empty, the list is empty. */
  lemma ParseChannelsUnset()
    ensures ParseChannels(None) == []
    ensures ParseChannels(Some("")) == []
  {
    assert SplitOn("", ',') == [""];
    assert Strip("") == [];
  }

  /** Entries keep their left-to-right order: the list of a concatenation is the concatenation of the lists. */
  lemma {:induction false} KeepStrippedAppend(a: seq<string>, b: seq<string>)
    requires CommaFree(a) && CommaFree(b)
    ensures CommaFree(a + b)
    ensures KeepStripped(a + b) == KeepStripped(a) + KeepStripped(b)
  {
    assert CommaFree(a + b) by {
      forall j | 0 <= j < |a + b| ensures ',' !in (a + b)[j] {
        if j < |a| {
          assert (a + b)[j] == a[j];
        } else {
          assert (a + b)[j] == b[j - |a|];
        }
      }
    }
    if a == [] {
      assert a + b == b;
    } else {
      assert (a + b)[0] == a[0];
      assert (a + b)[1..] == a[1..] + b;
      KeepStrippedAppend(a[1..], b);
    }
  }

  /** Writing channel entries out comma-separated and parsing them back gives the same list. */
  lemma {:induction false} ParseChannelsJoin(chans: seq<string>)
    requires forall i :: 0 <= i < |chans| ==> IsChannelEntry(chans[i])
    ensures ParseChannels(Some(JoinWith(chans, ','))) == chans
  {
    if chans == [] {
      ParseChannelsUnset();
    } else {
      assert CommaFree(chans);
      SplitOnJoin(chans, ',');
      KeepStrippedOfEntries(chans);
    }
  }

  lemma {:induction false} KeepStrippedOfEntries(chans: seq<string>)
    requires forall i :: 0 <= i < |chans| ==> IsChannelEntry(chans[i])
    requires CommaFree(chans)
    ensures KeepStripped(chans) == chans
  {
    if chans != [] {
      StripCharsOfClean(chans[0], Whitespace);
      KeepStrippedOfEntries(chans[1..]);
    }
  }
}
