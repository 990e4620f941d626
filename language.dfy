/**
 * The language context: the two display languages, the translation table with its fall-back to the key,
 * the toggle, and the right-to-left flag that sets the document's direction.
 */
module Language {
  import opened Common

  datatype Language = En | Ar

  /** One row of the translation table. */
  datatype Entry = Entry(en: string, ar: string)

  /** The translation table, row for row. */
  const Translations: map<string, Entry> := map[
    "dashboard" := Entry("Dashboard", "لوحة التحكم"),
    "sessions" := Entry("Sessions", "الجلسات"),
    "messages" := Entry("Messages", "الرسائل"),
    "analytics" := Entry("Analytics", "التحليلات"),
    "profile" := Entry("Profile", "الملف الشخصي"),
    "logout" := Entry("Logout", "تسجيل الخروج"),
    "welcomeBack" := Entry("Welcome Back", "مرحباً بعودتك"),
    "signIn" := Entry("Sign In", "تسجيل الدخول"),
    "signUp" := Entry("Sign Up", "إنشاء حساب"),
    "createAccount" := Entry("Create Account", "إنشاء حساب"),
    "email" := Entry("Email Address", "البريد الإلكتروني"),
    "password" := Entry("Password", "كلمة المرور"),
    "username" := Entry("Username", "اسم المستخدم"),
    "confirmPassword" := Entry("Confirm Password", "تأكيد كلمة المرور"),
    "currentPassword" := Entry("Current Password", "كلمة المرور الحالية"),
    "newPassword" := Entry("New Password", "كلمة المرور الجديدة"),
    "save" := Entry("Save", "حفظ"),
    "cancel" := Entry("Cancel", "إلغاء"),
    "edit" := Entry("Edit", "تعديل"),
    "delete" := Entry("Delete", "حذف"),
    "create" := Entry("Create", "إنشاء"),
    "loading" := Entry("Loading...", "جاري التحميل..."),
    "createSession" := Entry("Create Session", "إنشاء جلسة"),
    "scanQR" := Entry("Scan QR Code", "مسح رمز الاستجابة السريعة"),
    "reconnect" := Entry("Reconnect", "إعادة الاتصال"),
    "sendMessage" := Entry("Send Message", "إرسال رسالة"),
    "phoneNumber" := Entry("Phone Number", "رقم الهاتف"),
    "message" := Entry("Message", "الرسالة"),
    "required" := Entry("This field is required", "هذا الحقل مطلوب"),
    "invalidEmail" := Entry("Please enter a valid email address", "يرجى إدخال بريد إلكتروني صحيح"),
    "passwordTooShort" := Entry("Password must be at least 6 characters", "كلمة المرور يجب أن تكون 6 أحرف على الأقل"),
    "passwordsNotMatch" := Entry("Passwords do not match", "كلمات المرور غير متطابقة"),
    "invalidPhone" := Entry("Please enter a valid phone number", "يرجى إدخال رقم هاتف صحيح")
  ]

  /** The code under which a language is stored and set on the document. */
  function Code(l: Language): string {
    match l
    case En => "en"
    case Ar => "ar"
  }

  function TextIn(e: Entry, l: Language): string {
    match l
    case En => e.en
    case Ar => e.ar
  }

  /** Every row of the table has a non-empty text in both languages. */
  lemma TableTextsNonEmpty()
    ensures forall k :: k in Translations ==> Translations[k].en != "" && Translations[k].ar != ""
  {
  }

  /** `t(key)`: `translations[key]?.[language] || key`. */
  function Translate(l: Language, key: string): (r: string)
    ensures key in Translations ==> r == TextIn(Translations[key], l)
    ensures key !in Translations ==> r == key
  {
    TableTextsNonEmpty();
    if key in Translations && TextIn(Translations[key], l) != "" then TextIn(Translations[key], l) else key
  }

  /** `toggleLanguage`'s update: English becomes Arabic and anything else becomes English. */
  function Toggled(l: Language): (r: Language)
    ensures r != l
  {
    if l == En then Ar else En
  }

  /** Toggling twice restores the language. */
  lemma ToggleTwice(l: Language)
    ensures Toggled(Toggled(l)) == l
  {
  }

  /** The document direction the effect sets: right-to-left exactly for Arabic. */
  function Dir(l: Language): (d: string)
    ensures d == "rtl" <==> l == Ar
    ensures d == "ltr" <==> l == En
  {
    match l
    case Ar => "rtl"
    case En => "ltr"
  }

  /**
   * The initial language as written: the stored value is cast to a language without a check, so any
   * non-empty stored string becomes the current language; an absent or empty one gives English.
   */
  function InitialLanguageAsWritten(saved: Option<string>): (l: string)
    ensures Truthy(saved) ==> l == saved.value
    ensures !Truthy(saved) ==> l == "en"
  {
    if Truthy(saved) then saved.value else "en"
  }

  /** A stored "fr" survives the cast: the current language is then neither English nor Arabic. */
  lemma UncheckedSavedLanguage()
    ensures var l := InitialLanguageAsWritten(Some("fr"));
      l != Code(En) && l != Code(Ar)
  {
  }

  /** The intended initial language: the stored one when it names a known language, otherwise English. */
  function InitialLanguage(saved: Option<string>): (l: Language)
    ensures (saved.Some? && saved.value == Code(l)) || l == En
    ensures saved == Some("ar") <==> l == Ar
  {
    if saved == Some("ar") then Ar else En
  }

  /** On the values the app itself stores, the intended and the written initial language agree. */
  lemma InitialLanguageAgrees(saved: Option<string>)
    requires saved.Some? ==> saved.value in {"", "en", "ar"}
    ensures InitialLanguageAsWritten(saved) == Code(InitialLanguage(saved))
  {
  }

  /** What the app itself stores gives back, on the next start, the language it stored, as written and as intended. */
  lemma StoredCodeRestores(l: Language)
    ensures InitialLanguage(Some(Code(l))) == l
    ensures InitialLanguageAsWritten(Some(Code(l))) == Code(l)
  {
  }

  /**
   * The provider's state: the current language, from which `t`, `isRTL` and the document attributes follow,
   * and the `language` entry of local storage, which the effect rewrites whenever the language is set.
   */
  class LanguageState {
    var language: Language
    var stored: Option<string>

    /** The effect has stored the current language's code. */
    predicate Persisted()
      reads this
    {
      stored == Some(Code(language))
    }

    /** Mounting reads the stored entry, then the effect's first run stores the chosen language back. */
    constructor (saved: Option<string>)
      ensures language == InitialLanguage(saved)
      ensures Persisted()
    {
      language := InitialLanguage(saved);
      stored := Some(Code(InitialLanguage(saved)));
    }

    method ToggleLanguage()
      modifies this
      ensures language == Toggled(old(language))
      ensures language != old(language)
      ensures Persisted()
    {
      language := if language == En then Ar else En;
      stored := Some(Code(language));
    }

    method SetLanguage(l: Language)
      modifies this
      ensures language == l
      ensures Persisted()
    {
      language := l;
      stored := Some(Code(language));
    }

    /** A restart reads the entry the effect stored and comes back in the current language. */
    lemma RestartRestores()
      requires Persisted()
      ensures InitialLanguage(stored) == language
      ensures InitialLanguageAsWritten(stored) == Code(language)
    {
      StoredCodeRestores(language);
    }

    /** `t`: the current language's text for a known key, the key itself otherwise. */
    function T(key: string): (r: string)
      reads this
      ensures key in Translations ==> r == TextIn(Translations[key], language) && r != ""
      ensures key !in Translations ==> r == key
    {
      Translate(language, key)
    }

    /** `isRTL`: the page is laid out right to left exactly when the document direction is `rtl`. */
    predicate IsRtl()
      reads this
      ensures IsRtl() <==> Dir(language) == "rtl"
    {
      language == Ar
    }

    /** The `dir` and `lang` attributes the effect writes to the document element. */
    function DocumentAttributes(): (attrs: (string, string))
      reads this
      ensures attrs.0 == "rtl" <==> IsRtl()
      ensures attrs.1 == Code(language)
    {
      (Dir(language), Code(language))
    }
  }
}
