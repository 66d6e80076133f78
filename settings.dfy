/**
 * The application settings: salary (in cents), currency code and theme. The
 * stored record may lack fields; reading overlays it on the defaults, and
 * saving overlays a partial record on the current settings and stores the
 * result whole.
 */
module Settings {
  import opened Wrappers

  datatype Theme = Light | Dark

  datatype AppSettings = AppSettings(salary: int, currency: string, theme: Theme)

  /** A `Partial<AppSettings>`: `None` is a field the record does not carry. */
  datatype PartialSettings = PartialSettings(salary: Option<int>, currency: Option<string>, theme: Option<Theme>)

  const DefaultSettings := AppSettings(0, "BRL", Dark)

  const NoFields := PartialSettings(None, None, None)

  /** `{ ...base, ...p }`: every field `p` carries wins. */
  function Overlay(base: AppSettings, p: PartialSettings): (r: AppSettings)
    ensures p.salary.Some? ==> r.salary == p.salary.value
    ensures p.salary.None? ==> r.salary == base.salary
    ensures p.currency.Some? ==> r.currency == p.currency.value
    ensures p.currency.None? ==> r.currency == base.currency
    ensures p.theme.Some? ==> r.theme == p.theme.value
    ensures p.theme.None? ==> r.theme == base.theme
  {
    AppSettings(
      p.salary.GetOr(base.salary),
      p.currency.GetOr(base.currency),
      p.theme.GetOr(base.theme))
  }

  /** A whole record seen as a partial one that carries every field. */
  function Whole(s: AppSettings): PartialSettings {
    PartialSettings(Some(s.salary), Some(s.currency), Some(s.theme))
  }

  /** The partial record of `updateSalary`. */
  function SalaryOnly(salary: int): PartialSettings {
    PartialSettings(Some(salary), None, None)
  }

  /** Overlaying `q` after `p` is overlaying their merge, `q`'s fields winning. */
  function Merge(p: PartialSettings, q: PartialSettings): PartialSettings {
    PartialSettings(
      if q.salary.Some? then q.salary else p.salary,
      if q.currency.Some? then q.currency else p.currency,
      if q.theme.Some? then q.theme else p.theme)
  }

  /** The settings service over the one stored record. */
  class SettingsService {
    /** The content of the settings key; `None` when nothing is stored. */
    var stored: Option<PartialSettings>

    constructor()
      ensures stored == None
    {
      stored := None;
    }

    /** What `getSettings` reads: the defaults, overlaid by the stored fields when a record is stored. */
    function Current(): AppSettings
      reads this
    {
      match stored
      case None => DefaultSettings
      case Some(p) => Overlay(DefaultSettings, p)
    }

    /** `getSettings`. */
    method GetSettings() returns (s: AppSettings)
      ensures s == Current()
      ensures stored.None? ==> s == DefaultSettings
    {
      match stored
      case None =>
        s := DefaultSettings;
      case Some(p) =>
        s := Overlay(DefaultSettings, p);
    }

    /** `saveSettings(p)`: the current settings overlaid by `p`, stored whole. */
    method SaveSettings(p: PartialSettings)
      modifies this
      ensures stored == Some(Whole(Overlay(old(Current()), p)))
      ensures Current() == Overlay(old(Current()), p)
    {
      var current := GetSettings();
      var updated := Overlay(current, p);
      stored := Some(Whole(updated));
      OverlayWhole(DefaultSettings, updated);
    }

    /** `updateSalary(salary)`: saves a record carrying only the salary. */
    method UpdateSalary(salary: int)
      modifies this
      ensures Current() == old(Current()).(salary := salary)
    {
      SaveSettings(SalaryOnly(salary));
    }

    /** `clearSettings`: removes the stored record. */
    method ClearSettings()
      modifies this
      ensures stored == None && Current() == DefaultSettings
    {
      stored := None;
    }
  }

  // ---------------------------------------------------------------- lemmas

  /** A record stored whole reads back as itself, whatever the defaults. */
  lemma OverlayWhole(base: AppSettings, s: AppSettings)
    ensures Overlay(base, Whole(s)) == s
  {
  }

  /** Saving the same partial record twice is saving it once. */
  lemma OverlayIdempotent(s: AppSettings, p: PartialSettings)
    ensures Overlay(Overlay(s, p), p) == Overlay(s, p)
  {
  }

  /** Two saves in a row are one save of the merged partial record. */
  lemma OverlayMerge(s: AppSettings, p: PartialSettings, q: PartialSettings)
    ensures Overlay(Overlay(s, p), q) == Overlay(s, Merge(p, q))
  {
  }

  /** A partial record carrying no field changes nothing. */
  lemma OverlayNothing(s: AppSettings)
    ensures Overlay(s, NoFields) == s
  {
  }

  /** `updateSalary` changes the salary and no other field. */
  lemma SalaryOnlySpec(s: AppSettings, salary: int)
    ensures Overlay(s, SalaryOnly(salary)).salary == salary
    ensures Overlay(s, SalaryOnly(salary)).currency == s.currency
    ensures Overlay(s, SalaryOnly(salary)).theme == s.theme
  {
  }
}
