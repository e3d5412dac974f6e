/**
 * The language context: the `t` lookup, the saved-language check, and the skill-name and
 * worker-type dictionaries with their fallbacks.
 */
module Language {
  import opened Common
  import opened JsText

  datatype Lang = En | Hi | Mr

  /** The code stored under `rozgaar-language`. */
  function Code(l: Lang): string {
    match l
    case En => "en"
    case Hi => "hi"
    case Mr => "mr"
  }

  /** `savedLanguage && ['en', 'hi', 'mr'].includes(savedLanguage)`: a stored value is used only
      when it is one of the three codes; otherwise Hindi, the initial state, stays. */
  function RestoreLanguage(saved: Option<string>): (l: Lang)
    ensures saved.Some? && saved.value == "en" ==> l == En
    ensures saved.Some? && saved.value == "mr" ==> l == Mr
    ensures saved.None? || saved.value !in {"en", "hi", "mr"} ==> l == Hi
  {
    if saved == Some("en") then En
    else if saved == Some("mr") then Mr
    else Hi
  }

  /** The language chosen with `setLanguage` is the one restored on the next load. */
  lemma RestoreSavedLanguage(l: Lang)
    ensures RestoreLanguage(Some(Code(l))) == l
  {
  }

  /** `translation[key] || key`: the entry when present and non-empty, else the key itself. */
  function T(table: map<string, string>, key: string): (r: string)
    ensures key in table && table[key] != "" ==> r == table[key]
    ensures key !in table || table[key] == "" ==> r == key
  {
    if key in table && table[key] != "" then table[key] else key
  }

  /** `jobTranslations.skills[language]`. */
  function SkillTable(l: Lang): map<string, string> {
    match l
    case En => map[
        "electrician" := "Electrician",
        "carpenter" := "Carpenter",
        "plumber" := "Plumber",
        "painter" := "Painter",
        "driver" := "Driver",
        "cook" := "Cook",
        "cleaner" := "Cleaner",
        "security" := "Security Guard",
        "mason" := "Mason",
        "welder" := "Welder",
        "mechanic" := "Mechanic",
        "gardener" := "Gardener",
        "helper" := "Helper",
        "technician" := "Technician",
        "worker" := "Worker",
        "labour" := "Labour",
        "supervisor" := "Supervisor"
      ]
    case Hi => map[
        "electrician" := "इलेक्ट्रीशियन",
        "carpenter" := "बढ़ई",
        "plumber" := "प्लंबर",
        "painter" := "पेंटर",
        "driver" := "ड्राइवर",
        "cook" := "रसोइया",
        "cleaner" := "सफाईकर्मी",
        "security" := "सिक्यूरिटी गार्ड",
        "mason" := "राजमिस्त्री",
        "welder" := "वेल्डर",
        "mechanic" := "मैकेनिक",
        "gardener" := "माली",
        "helper" := "सहायक",
        "technician" := "तकनीशियन",
        "worker" := "मजदूर",
        "labour" := "श्रमिक",
        "supervisor" := "पर्यवेक्षक"
      ]
    case Mr => map[
        "electrician" := "इलेक्ट्रिशियन",
        "carpenter" := "सुतार",
        "plumber" := "प्लंबर",
        "painter" := "पेंटर",
        "driver" := "ड्रायव्हर",
        "cook" := "स्वयंपाकी",
        "cleaner" := "स्वच्छताकर्मी",
        "security" := "सिक्यूरिटी गार्ड",
        "mason" := "राजमिस्त्री",
        "welder" := "वेल्डर",
        "mechanic" := "मेकॅनिक",
        "gardener" := "माळी",
        "helper" := "सहाय्यक",
        "technician" := "तंत्रज्ञ",
        "worker" := "कामगार",
        "labour" := "मजूर",
        "supervisor" := "पर्यवेक्षक"
      ]
  }

  /** `jobTranslations.workerTypes[language]`. */
  function WorkerTypeTable(l: Lang): map<string, string> {
    match l
    case En => map[
        "full-time" := "Full-time",
        "part-time" := "Part-time",
        "contract" := "Contract",
        "daily-wage" := "Daily Wage",
        "hourly" := "Hourly",
        "temporary" := "Temporary"
      ]
    case Hi => map[
        "full-time" := "पूर्णकालिक",
        "part-time" := "अंशकालिक",
        "contract" := "संविदा",
        "daily-wage" := "दैनिक मजदूरी",
        "hourly" := "प्रति घंटे",
        "temporary" := "अस्थायी"
      ]
    case Mr => map[
        "full-time" := "पूर्णवेळ",
        "part-time" := "अर्धवेळ",
        "contract" := "करार",
        "daily-wage" := "दैनिक मजुरी",
        "hourly" := "तासाभराची",
        "temporary" := "तात्पुरती"
      ]
  }

  /** Every English skill key and worker-type key has a non-empty entry in both the Hindi and
      the Marathi tables, and neither table has keys the English one lacks. */
  lemma TablesCoverEnglishKeys()
    ensures SkillTable(Hi).Keys == SkillTable(En).Keys && SkillTable(Mr).Keys == SkillTable(En).Keys
    ensures WorkerTypeTable(Hi).Keys == WorkerTypeTable(En).Keys && WorkerTypeTable(Mr).Keys == WorkerTypeTable(En).Keys
    ensures forall l, k :: k in SkillTable(l) ==> SkillTable(l)[k] != ""
    ensures forall l, k :: k in WorkerTypeTable(l) ==> WorkerTypeTable(l)[k] != ""
  {
    SkillKeysAgree();
    WorkerTypeKeysAgree();
    forall l: Lang ensures forall k :: k in SkillTable(l) ==> SkillTable(l)[k] != "" {
      SkillEntriesNonEmpty(l);
    }
    forall l: Lang ensures forall k :: k in WorkerTypeTable(l) ==> WorkerTypeTable(l)[k] != "" {
      WorkerTypeEntriesNonEmpty(l);
    }
  }

  lemma SkillKeysAgree()
    ensures SkillTable(Hi).Keys == SkillTable(En).Keys && SkillTable(Mr).Keys == SkillTable(En).Keys
  {
  }

  lemma WorkerTypeKeysAgree()
    ensures WorkerTypeTable(Hi).Keys == WorkerTypeTable(En).Keys && WorkerTypeTable(Mr).Keys == WorkerTypeTable(En).Keys
  {
  }

  lemma SkillEntriesNonEmpty(l: Lang)
    ensures forall k :: k in SkillTable(l) ==> SkillTable(l)[k] != ""
  {
  }

  lemma WorkerTypeEntriesNonEmpty(l: Lang)
    ensures forall k :: k in WorkerTypeTable(l) ==> WorkerTypeTable(l)[k] != ""
  {
  }

  /** `translateSkillName`: English and the empty name pass through; otherwise the lowercased
      name is looked up, and a name without an entry is returned unchanged. */
  function TranslateSkillName(skill: string, l: Lang): string {
    if l == En || skill == "" then skill
    else
      var key := ToLower(skill);
      if key in SkillTable(l) && SkillTable(l)[key] != "" then SkillTable(l)[key] else skill
  }

  /** The skill lookup ignores ASCII case: two spellings that lowercase alike translate alike
      whenever either has an entry, and a name with no entry comes back unchanged. */
  lemma SkillLookupIgnoresCase(a: string, b: string, l: Lang)
    requires a != "" && b != "" && ToLower(a) == ToLower(b) && ToLower(a) in SkillTable(l) && l != En
    ensures TranslateSkillName(a, l) == TranslateSkillName(b, l) == SkillTable(l)[ToLower(a)]
  {
    TablesCoverEnglishKeys();
  }

  lemma SkillLookupFallback(skill: string, l: Lang)
    ensures l == En || skill == "" || ToLower(skill) !in SkillTable(l) ==> TranslateSkillName(skill, l) == skill
  {
  }

  /** `translateWorkerType`: English and the empty type pass through; otherwise an exact,
      case-sensitive lookup, with an unknown type returned unchanged. */
  function TranslateWorkerType(t: string, l: Lang): (r: string)
    ensures l == En || t == "" || t !in WorkerTypeTable(l) ==> r == t
    ensures l != En && t != "" && t in WorkerTypeTable(l) ==> r == WorkerTypeTable(l)[t]
  {
    WorkerTypeEntriesNonEmpty(l);
    if l == En || t == "" then t
    else if t in WorkerTypeTable(l) && WorkerTypeTable(l)[t] != "" then WorkerTypeTable(l)[t]
    else t
  }

  /** `translateJobContent`: English and the empty text come back unchanged; otherwise the
      result of the word-replacement passes, given here as `replaced`. */
  function TranslateJobContent(text: string, l: Lang, replaced: string): (r: string)
    ensures l == En || text == "" ==> r == text
    ensures l != En && text != "" ==> r == replaced
  {
    if l == En || text == "" then text else replaced
  }

  /** The provider's state: the current language and the value kept in local storage. */
  class LanguageProvider {
    var language: Lang
    var stored: Option<string>

    /** Mounting: Hindi first, then the stored value if it is a known code. */
    constructor (stored: Option<string>)
      ensures this.stored == stored && language == RestoreLanguage(stored)
    {
      this.stored := stored;
      language := Hi;
      if stored.Some? && stored.value in {"en", "hi", "mr"} {
        language := if stored.value == "en" then En else if stored.value == "mr" then Mr else Hi;
      }
    }

    /** `handleSetLanguage`: switches the language and stores its code. */
    method SetLanguage(l: Lang)
      modifies this
      ensures language == l && stored == Some(Code(l))
      ensures RestoreLanguage(stored) == language
    {
      language := l;
      stored := Some(Code(l));
    }
  }
}
