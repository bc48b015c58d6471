/**
 * The phrase dictionary of the translation route (server/index.js:36-105):
 * for each target language, English phrases (lower case) and their
 * translations, in the order they are written, which is the order `for...in`
 * enumerates them.
 */
module Lexicon {

  /** The phrases of one target language. */
  type Phrasebook = seq<(string, string)>

  const Hindi: Phrasebook := [
    ("hello", "नमस्ते"),
    ("hi", "नमस्ते"),
    ("hey", "अरे"),
    ("goodbye", "अलविदा"),
    ("bye", "अलविदा"),
    ("thank you", "धन्यवाद"),
    ("thanks", "धन्यवाद"),
    ("yes", "हाँ"),
    ("ok", "ठीक है"),
    ("okay", "ठीक है"),
    ("no", "नहीं"),
    ("nope", "नहीं"),
    ("good morning", "सुप्रभात"),
    ("morning", "सुप्रभात"),
    ("good afternoon", "नमस्ते"),
    ("afternoon", "दोपहर"),
    ("good evening", "शुभ संध्या"),
    ("evening", "शाम"),
    ("good night", "शुभ रात्रि"),
    ("night", "रात"),
    ("how are you", "आप कैसे हैं"),
    ("how", "कैसे"),
    ("are", "हैं"),
    ("you", "आप"),
    ("i am fine", "मैं ठीक हूँ"),
    ("fine", "ठीक"),
    ("good", "अच्छा"),
    ("bad", "बुरा"),
    ("love", "प्यार"),
    ("water", "पानी"),
    ("food", "खाना"),
    ("help", "मदद"),
    ("friend", "दोस्त"),
    ("family", "परिवार"),
    ("home", "घर"),
    ("listen", "सुनिए"),
    ("speak", "बोलिए"),
    ("translate", "अनुवाद करें")
  ]

  const Tamil: Phrasebook := [
    ("hello", "வணக்கம்"),
    ("hi", "வணக்கம்"),
    ("hey", "ஆய்"),
    ("goodbye", "பிறகு சந்திப்போம்"),
    ("bye", "பிறகு சந்திப்போம்"),
    ("thank you", "நன்றி"),
    ("thanks", "நன்றி"),
    ("yes", "ஆம்"),
    ("ok", "சரி"),
    ("okay", "சரி"),
    ("no", "இல்லை"),
    ("nope", "இல்லை"),
    ("good morning", "காலைநலம்"),
    ("morning", "காலை"),
    ("good afternoon", "பிற்பகல் வணக்கம்"),
    ("afternoon", "பிற்பகல்"),
    ("good evening", "மாலை வணக்கம்"),
    ("evening", "மாலை"),
    ("good night", "இரவு வணக்கம்"),
    ("night", "இரவு"),
    ("how are you", "நீ எப்படி இருக்கிறாய்"),
    ("how", "எப்படி"),
    ("are", "இருக்கிறாய்"),
    ("you", "நீ"),
    ("i am fine", "நான் நன்றாக இருக்கிறேன்"),
    ("fine", "நன்றாக"),
    ("good", "நல்ல"),
    ("bad", "கெட்ட"),
    ("love", "அன்பு"),
    ("water", "நீர்"),
    ("food", "உணவு"),
    ("help", "உதவி"),
    ("friend", "நண்பன்"),
    ("family", "குடும்பம்"),
    ("home", "வீடு"),
    ("listen", "கேளுங்கள்"),
    ("speak", "பேசுங்கள்"),
    ("translate", "மொழிபெயர்ப்பு செய்யுங்கள்")
  ]

  const Telugu: Phrasebook := [
    ("hello", "హలో"),
    ("hi", "హలో"),
    ("hey", "ఓయ్"),
    ("goodbye", "సరే"),
    ("bye", "దీక్ష"),
    ("thank you", "ధన్యవాదాలు"),
    ("thanks", "ధన్యవాదాలు"),
    ("yes", "అవును"),
    ("ok", "సరే"),
    ("okay", "సరే"),
    ("no", "లేదు"),
    ("nope", "లేదు"),
    ("good morning", "శుభోదయం"),
    ("shubodayam", "శుభోదయం"),
    ("morning", "ఉదయం"),
    ("good afternoon", "శుభ మధ్యాహ్నం"),
    ("afternoon", "మధ్యాహ్నం"),
    ("good evening", "శుభ సంధ్య"),
    ("evening", "సంధ్య"),
    ("good night", "శుభ రాత్రి"),
    ("night", "రాత్రి"),
    ("how are you", "మీరు ఎలా ఉన్నారు"),
    ("how", "ఎలా"),
    ("are", "ఉన్నారు"),
    ("you", "మీరు"),
    ("i am fine", "నేను బాగున్నాను"),
    ("fine", "బాగు"),
    ("good", "మంచి"),
    ("bad", "చెడ్డ"),
    ("love", "ప్రేమ"),
    ("water", "నీరు"),
    ("food", "ఆహారం"),
    ("help", "సహాయం"),
    ("friend", "స్నేహితుడు"),
    ("family", "కుటుంబం"),
    ("home", "ఇల్లు"),
    ("listen", "వినండి"),
    ("speak", "మాట్లాడండి"),
    ("translate", "అనువాదం చేయండి")
  ]

  const Bengali: Phrasebook := [
    ("hello", "হ্যালো"),
    ("hi", "হ্যালো"),
    ("hey", "ওয়েই"),
    ("goodbye", "বিদায়"),
    ("bye", "পুনরায় দেখা হবে"),
    ("thank you", "ধন্যবাদ"),
    ("thanks", "ধন্যবাদ"),
    ("yes", "হ্যাঁ"),
    ("ok", "ঠিক আছে"),
    ("okay", "ঠিক আছে"),
    ("no", "না"),
    ("nope", "না"),
    ("good morning", "শুভ সকাল"),
    ("morning", "সকাল"),
    ("good afternoon", "শুভ অপরাহ্ন"),
    ("afternoon", "অপরাহ্ন"),
    ("good evening", "শুভ সন্ধ্যা"),
    ("evening", "সন্ধ্যা"),
    ("good night", "শুভ রাত্রি"),
    ("night", "রাত"),
    ("how are you", "আপনি কেমন আছেন"),
    ("how", "কেমন"),
    ("are", "আছেন"),
    ("you", "আপনি"),
    ("i am fine", "আমি ভালো আছি"),
    ("fine", "ভালো"),
    ("good", "ভাল"),
    ("bad", "খারাপ"),
    ("love", "ভালোবাসা"),
    ("water", "পানি"),
    ("food", "খাবার"),
    ("help", "সাহায্য"),
    ("friend", "বন্ধু"),
    ("family", "পরিবার"),
    ("home", "বাড়ি"),
    ("listen", "শুনুন"),
    ("speak", "কথা বলুন"),
    ("translate", "অনুবাদ করুন")
  ]

  /** `dictionary`: target language code to its phrasebook. */
  const Dictionary: seq<(string, Phrasebook)> := [("hi", Hindi), ("ta", Tamil), ("te", Telugu), ("bn", Bengali)]
}
