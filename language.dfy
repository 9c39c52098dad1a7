/** The interface's two languages: the English and Hindi string tables, the lookup `t`
    that falls back to the key itself, and the provider's language state with its
    persisted copy. */
module Language {
  import opened HealthTypes

  datatype Lang = En | Hi

  /** The code a language is stored under. */
  function Code(lang: Lang): (c: string)
    ensures c == "en" || c == "hi"
  {
    match lang
    case En => "en"
    case Hi => "hi"
  }

  /** The stored-value check: only exactly `en` or `hi` names a language. */
  function ParseCode(stored: Option<string>): (lang: Option<Lang>)
    ensures lang.Some? <==> stored == Some("en") || stored == Some("hi")
    ensures lang.Some? ==> stored == Some(Code(lang.value))
  {
    if stored == Some("en") then Some(En)
    else if stored == Some("hi") then Some(Hi)
    else None
  }

  lemma CodeRoundTrip(lang: Lang)
    ensures ParseCode(Some(Code(lang))) == Some(lang)
  {
  }

  /** The keys of the translation tables, one constructor per key, named as the key. */
  datatype Key =
      appName | appDescription | login | register | logout | cancel | save | delete | edit
    | view | download | upload | search | loading | success | error | dashboard | patients
    | records | alerts | profile | settings | patient | doctor | admin | welcome
    | welcomeBack | totalPatients | totalRecords | totalAlerts | pendingRequests
    | recentActivity | addRecord | addMedicalRecord | medicalRecords | recordTitle
    | recordDescription | recordType | uploadFile | attachFile | noRecords | firstRecord
    | prescription | labResult | diagnosis | treatment | vaccination | other
    | accessRequests | requestAccess | approveAccess | denyAccess | accessGranted
    | accessDenied | pending | patientProfile | medicalId | personalInfo | emergencyContact
    | medicalInfo | allergies | medicalConditions | createAlert | alertSeverity
    | alertTitle | alertDescription | low | medium | high | critical | language | english
    | hindi

  /** A table entry: every entry of both tables is non-empty text. */
  type Text = s: string | |s| > 0 witness "?"

  /** The key a string names, if any: the property lookup `translations[language][key]`
      finds an entry only for these strings. */
  function KeyOf(key: string): (k: Option<Key>)
  {
    match key
    case "language" => Some(language)
    case "appName" => Some(appName)
    case "appDescription" => Some(appDescription)
    case "login" => Some(login)
    case "register" => Some(register)
    case "logout" => Some(logout)
    case "cancel" => Some(cancel)
    case "save" => Some(save)
    case "delete" => Some(delete)
    case "edit" => Some(edit)
    case "view" => Some(view)
    case "download" => Some(download)
    case "upload" => Some(upload)
    case "search" => Some(search)
    case "loading" => Some(loading)
    case "success" => Some(success)
    case "error" => Some(error)
    case "dashboard" => Some(dashboard)
    case "patients" => Some(patients)
    case "records" => Some(records)
    case "alerts" => Some(alerts)
    case "profile" => Some(profile)
    case "settings" => Some(settings)
    case "patient" => Some(patient)
    case "doctor" => Some(doctor)
    case "admin" => Some(admin)
    case "welcome" => Some(welcome)
    case "welcomeBack" => Some(welcomeBack)
    case "totalPatients" => Some(totalPatients)
    case "totalRecords" => Some(totalRecords)
    case "totalAlerts" => Some(totalAlerts)
    case "pendingRequests" => Some(pendingRequests)
    case "recentActivity" => Some(recentActivity)
    case "addRecord" => Some(addRecord)
    case "addMedicalRecord" => Some(addMedicalRecord)
    case "medicalRecords" => Some(medicalRecords)
    case "recordTitle" => Some(recordTitle)
    case "recordDescription" => Some(recordDescription)
    case "recordType" => Some(recordType)
    case "uploadFile" => Some(uploadFile)
    case "attachFile" => Some(attachFile)
    case "noRecords" => Some(noRecords)
    case "firstRecord" => Some(firstRecord)
    case "prescription" => Some(prescription)
    case "labResult" => Some(labResult)
    case "diagnosis" => Some(diagnosis)
    case "treatment" => Some(treatment)
    case "vaccination" => Some(vaccination)
    case "other" => Some(other)
    case "accessRequests" => Some(accessRequests)
    case "requestAccess" => Some(requestAccess)
    case "approveAccess" => Some(approveAccess)
    case "denyAccess" => Some(denyAccess)
    case "accessGranted" => Some(accessGranted)
    case "accessDenied" => Some(accessDenied)
    case "pending" => Some(pending)
    case "patientProfile" => Some(patientProfile)
    case "medicalId" => Some(medicalId)
    case "personalInfo" => Some(personalInfo)
    case "emergencyContact" => Some(emergencyContact)
    case "medicalInfo" => Some(medicalInfo)
    case "allergies" => Some(allergies)
    case "medicalConditions" => Some(medicalConditions)
    case "createAlert" => Some(createAlert)
    case "alertSeverity" => Some(alertSeverity)
    case "alertTitle" => Some(alertTitle)
    case "alertDescription" => Some(alertDescription)
    case "low" => Some(low)
    case "medium" => Some(medium)
    case "high" => Some(high)
    case "critical" => Some(critical)
    case "english" => Some(english)
    case "hindi" => Some(hindi)
    case _ => None
  }

  /** The English table. */
  function English(k: Key): Text
  {
    match k
    case appName => "MedLink"
    case appDescription => "Digital Health Record System"
    case login => "Sign In"
    case register => "Sign Up"
    case logout => "Sign Out"
    case cancel => "Cancel"
    case save => "Save"
    case delete => "Delete"
    case edit => "Edit"
    case view => "View"
    case download => "Download"
    case upload => "Upload"
    case search => "Search"
    case loading => "Loading..."
    case success => "Success"
    case error => "Error"
    case dashboard => "Dashboard"
    case patients => "Patients"
    case records => "Medical Records"
    case alerts => "Alerts"
    case profile => "Profile"
    case settings => "Settings"
    case patient => "Patient"
    case doctor => "Doctor"
    case admin => "Administrator"
    case welcome => "Welcome"
    case welcomeBack => "Welcome back"
    case totalPatients => "Total Patients"
    case totalRecords => "Medical Records"
    case totalAlerts => "Alerts Raised"
    case pendingRequests => "Pending Requests"
    case recentActivity => "Recent Activity"
    case addRecord => "Add Record"
    case addMedicalRecord => "Add Medical Record"
    case medicalRecords => "Medical Records"
    case recordTitle => "Title"
    case recordDescription => "Description"
    case recordType => "Record Type"
    case uploadFile => "Upload File"
    case attachFile => "Attach File"
    case noRecords => "No medical records"
    case firstRecord => "Add First Record"
    case prescription => "Prescription"
    case labResult => "Lab Result"
    case diagnosis => "Diagnosis"
    case treatment => "Treatment"
    case vaccination => "Vaccination"
    case other => "Other"
    case accessRequests => "Access Requests"
    case requestAccess => "Request Access"
    case approveAccess => "Approve"
    case denyAccess => "Deny"
    case accessGranted => "Access Granted"
    case accessDenied => "Access Denied"
    case pending => "Pending"
    case patientProfile => "Patient Profile"
    case medicalId => "Medical ID"
    case personalInfo => "Personal Information"
    case emergencyContact => "Emergency Contact"
    case medicalInfo => "Medical Information"
    case allergies => "Allergies"
    case medicalConditions => "Medical Conditions"
    case createAlert => "Create Alert"
    case alertSeverity => "Severity"
    case alertTitle => "Alert Title"
    case alertDescription => "Description"
    case low => "Low"
    case medium => "Medium"
    case high => "High"
    case critical => "Critical"
    case language => "Language"
    case english => "English"
    case hindi => "हिंदी"
  }

  /** The Hindi table. */
  function Hindi(k: Key): Text
  {
    match k
    case appName => "मेडलिंक"
    case appDescription => "डिजिटल स्वास्थ्य रिकॉर्ड सिस्टम"
    case login => "साइन इन"
    case register => "साइन अप"
    case logout => "साइन आउट"
    case cancel => "रद्द करें"
    case save => "सेव करें"
    case delete => "डिलीट करें"
    case edit => "संपादित करें"
    case view => "देखें"
    case download => "डाउनलोड"
    case upload => "अपलोड"
    case search => "खोजें"
    case loading => "लोड हो रहा है..."
    case success => "सफलता"
    case error => "त्रुटि"
    case dashboard => "डैशबोर्ड"
    case patients => "मरीज़"
    case records => "मेडिकल रिकॉर्ड"
    case alerts => "अलर्ट"
    case profile => "प्रोफाइल"
    case settings => "सेटिंग्स"
    case patient => "मरीज़"
    case doctor => "डॉक्टर"
    case admin => "प्रशासक"
    case welcome => "स्वागत है"
    case welcomeBack => "वापस स्वागत है"
    case totalPatients => "कुल मरीज़"
    case totalRecords => "मेडिकल रिकॉर्ड"
    case totalAlerts => "अलर्ट"
    case pendingRequests => "लंबित अनुरोध"
    case recentActivity => "हाल की गतिविधि"
    case addRecord => "रिकॉर्ड जोड़ें"
    case addMedicalRecord => "मेडिकल रिकॉर्ड जोड़ें"
    case medicalRecords => "मेडिकल रिकॉर्ड"
    case recordTitle => "शीर्षक"
    case recordDescription => "विवरण"
    case recordType => "रिकॉर्ड प्रकार"
    case uploadFile => "फाइल अपलोड करें"
    case attachFile => "फाइल संलग्न करें"
    case noRecords => "कोई मेडिकल रिकॉर्ड नहीं"
    case firstRecord => "पहला रिकॉर्ड जोड़ें"
    case prescription => "नुस्खा"
    case labResult => "लैब रिपोर्ट"
    case diagnosis => "निदान"
    case treatment => "उपचार"
    case vaccination => "टीकाकरण"
    case other => "अन्य"
    case accessRequests => "पहुंच अनुरोध"
    case requestAccess => "पहुंच का अनुरोध करें"
    case approveAccess => "अनुमोदन"
    case denyAccess => "अस्वीकार"
    case accessGranted => "पहुंच दी गई"
    case accessDenied => "पहुंच अस्वीकृत"
    case pending => "लंबित"
    case patientProfile => "मरीज़ प्रोफाइल"
    case medicalId => "मेडिकल आईडी"
    case personalInfo => "व्यक्तिगत जानकारी"
    case emergencyContact => "आपातकालीन संपर्क"
    case medicalInfo => "मेडिकल जानकारी"
    case allergies => "एलर्जी"
    case medicalConditions => "मेडिकल स्थितियां"
    case createAlert => "अलर्ट बनाएं"
    case alertSeverity => "गंभीरता"
    case alertTitle => "अलर्ट शीर्षक"
    case alertDescription => "विवरण"
    case low => "कम"
    case medium => "मध्यम"
    case high => "उच्च"
    case critical => "गंभीर"
    case language => "भाषा"
    case english => "English"
    case hindi => "हिंदी"
  }

  /** `translations[lang][key]`: the entry of the current table, none for a string that
      is not a key. */
  function Table(lang: Lang, key: string): (entry: Option<string>)
    ensures entry.Some? <==> KeyOf(key).Some?
    ensures entry.Some? ==> entry.value == if lang == En then English(KeyOf(key).value) else Hindi(KeyOf(key).value)
  {
    match KeyOf(key)
    case None => None
    case Some(k) => Some(if lang == En then English(k) else Hindi(k))
  }

  /** `translations[language][key] || key`: the entry when there is a non-empty one,
      otherwise the key itself. */
  function T(lang: Lang, key: string): (s: string)
    ensures Table(lang, key).Some? && Table(lang, key).value != "" ==> s == Table(lang, key).value
    ensures Table(lang, key).None? || Table(lang, key).value == "" ==> s == key
  {
    match Table(lang, key)
    case Some(text) => if text != "" then text else key
    case None => key
  }

  /** Both tables translate the same strings: a string has an entry in one language
      exactly when it has one in the other. */
  lemma SameKeys(key: string)
    ensures Table(En, key).Some? <==> Table(Hi, key).Some?
  {
  }

  /** No entry is empty, so `t` returns the table's text for every key it has. */
  lemma EntriesAreNonEmpty(lang: Lang, key: string)
    requires Table(lang, key).Some?
    ensures T(lang, key) == Table(lang, key).value && T(lang, key) != ""
  {
  }

  /** `t('language')` is the word for "language" in either table, never a language code,
      so a comparison of it with `'hi'` is false in both languages. */
  lemma LanguageLabelIsNotACode(lang: Lang)
    ensures T(lang, "language") == (if lang == En then "Language" else "भाषा")
    ensures T(lang, "language") != "en" && T(lang, "language") != "hi"
  {
  }

  /** The provider's state: the current language, and the value persisted under the
      `language` key (none when nothing is stored). */
  class LanguageState {
    var language: Lang
    var stored: Option<string>

    /** The first render: English, whatever is stored. */
    constructor (stored: Option<string>)
      ensures language == En && this.stored == stored
    {
      language := En;
      this.stored := stored;
    }

    /** The mount effect: a stored value is adopted only when it names a language. */
    method AdoptStored()
      modifies this
      ensures ParseCode(old(stored)).Some? ==> language == ParseCode(old(stored)).value
      ensures ParseCode(old(stored)).None? ==> language == old(language)
      ensures stored == old(stored)
    {
      var parsed := ParseCode(stored);
      if parsed.Some? {
        language := parsed.value;
      }
    }

    /** `handleSetLanguage`: the state and the persisted value both become the choice. */
    method SetLanguage(lang: Lang)
      modifies this
      ensures language == lang && stored == Some(Code(lang))
    {
      language := lang;
      stored := Some(Code(lang));
    }

    /** `t` as the provider hands it out: the current language's entry, or the key. */
    function Translate(key: string): (s: string)
      reads this
      ensures Table(language, key).Some? && Table(language, key).value != "" ==> s == Table(language, key).value
      ensures Table(language, key).None? ==> s == key
    {
      T(language, key)
    }
  }

  /** A choice made with setLanguage is the language of the next provider that mounts
      with the persisted value. */
  method ChoiceSurvivesReload(lang: Lang) returns (next: LanguageState)
    ensures next.language == lang
  {
    var current := new LanguageState(None);
    current.SetLanguage(lang);
    next := new LanguageState(current.stored);
    next.AdoptStored();
  }
}
