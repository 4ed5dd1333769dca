/** The viewer page runs both scripts against one localStorage. Their entries
    are disjoint, so neither script's writes disturb the other's state. */
module Page {
  import opened Storage
  import DiffViewer
  import I18n

  lemma KeysDistinct()
    ensures I18n.LocaleKey != DiffViewer.LayoutKey && I18n.LocaleKey != DiffViewer.ContentKey
  {
    assert I18n.LocaleKey[13] != DiffViewer.LayoutKey[13];
    assert I18n.LocaleKey[12] != DiffViewer.ContentKey[12];
  }

  /** Saving and clearing the diff session keep the stored locale preference. */
  lemma ViewerKeepsLocale(p: Policy, s: DiffViewer.Session)
    ensures var saved := DiffViewer.SaveSnapshot(p, s.saved, s.layout, s.input);
            && (I18n.LocaleKey in saved <==> I18n.LocaleKey in s.saved)
            && (I18n.LocaleKey in s.saved ==> saved[I18n.LocaleKey] == s.saved[I18n.LocaleKey])
    ensures var cleared := DiffViewer.ClearStep(p, s).saved;
            && (I18n.LocaleKey in cleared <==> I18n.LocaleKey in s.saved)
            && (I18n.LocaleKey in s.saved ==> cleared[I18n.LocaleKey] == s.saved[I18n.LocaleKey])
  {
    KeysDistinct();
    DiffViewer.SaveOutcome(p, s.saved, s.layout, s.input, I18n.LocaleKey);
  }

  /** Storing a locale preference keeps the stored layout and content. */
  lemma LocaleKeepsViewer(p: Policy, saved: map<string, string>, locale: string, key: string)
    requires key == DiffViewer.LayoutKey || key == DiffViewer.ContentKey
    ensures var after := Written(p, saved, I18n.LocaleKey, locale);
            && (key in after <==> key in saved)
            && (key in saved ==> after[key] == saved[key])
  {
    KeysDistinct();
  }
}
