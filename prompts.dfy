/** The prompt texts both backends share: a language instruction and a task
    instruction per response language, keyed by the French language names
    the interface offers. */
module Prompts {

  datatype Language = Francais | Anglais | Espagnol | Allemand

  datatype Role = System | User

  /** One chat message, a `(role, content)` pair. */
  datatype Message = Message(role: Role, content: string)

  /** The dictionary key under which a language's prompts are stored. */
  function Key(l: Language): string
  {
    match l
    case Francais => "Français"
    case Anglais => "Anglais"
    case Espagnol => "Espagnol"
    case Allemand => "Allemand"
  }

  /** Dictionary lookup with `.get(langue, <French entry>)`: a key of the
      table selects its language, anything else falls back to French. */
  function LanguageOf(langue: string): (l: Language)
    ensures Key(l) == langue || l == Francais
    ensures (forall k: Language :: Key(k) != langue) ==> l == Francais
  {
    if langue == "Anglais" then Anglais
    else if langue == "Espagnol" then Espagnol
    else if langue == "Allemand" then Allemand
    else Francais
  }

  lemma LanguageOfKey(l: Language)
    ensures LanguageOf(Key(l)) == l
  {
  }

  /** The first system message: always answer in the chosen language. */
  function LanguePrompt(l: Language): string
  {
    match l
    case Francais => "Tu es un assistant IA qui répond toujours en français."
    case Anglais => "You are an AI assistant who always replies in English."
    case Espagnol => "Eres un asistente de IA que siempre responde en español."
    case Allemand => "Du bist ein KI-Assistent, der immer auf Deutsch antwortet."
  }

  /** The task instruction that precedes the retrieved context, with the
      indentation the triple-quoted template carries into the string. */
  function TaskInstructions(l: Language): string
  {
    match l
    case Francais =>
      "Utilise les extraits de contexte suivants pour répondre à la question.\n"
      + "        Si tu ne sais pas répondre, dis que tu ne sais pas.\n"
      + "        Utilise trois phrases maximum et reste concis.\n        "
    case Anglais =>
      "Use the following pieces of context to answer the question.\n"
      + "        If you don't know the answer, just say you don't know.\n"
      + "        Use three sentences maximum and keep the answer concise.\n        "
    case Espagnol =>
      "Usa los siguientes fragmentos de contexto para responder a la pregunta.\n"
      + "        Si no sabes la respuesta, simplemente dilo.\n"
      + "        Usa un máximo de tres frases y sé conciso.\n        "
    case Allemand =>
      "Verwende die folgenden Kontexte, um die Frage zu beantworten.\n"
      + "        Wenn du die Antwort nicht weißt, gib dies an.\n"
      + "        Antworte in höchstens drei Sätzen und sei prägnant.\n        "
  }

  /** The task prompt with the context substituted for its placeholder. */
  function TaskPrompt(l: Language, context: string): (r: string)
    ensures |r| == |TaskInstructions(l)| + |context|
    ensures r[..|TaskInstructions(l)|] == TaskInstructions(l)
    ensures r[|TaskInstructions(l)|..] == context
  {
    TaskInstructions(l) + context
  }
}
