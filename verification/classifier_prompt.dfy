/** The classifier's built-in system prompt (src/ai/classifier.ts), in
    Spanish as written: a template literal whose one substitution is the
    window text, trimmed before use. */
module ClassifierPrompt {
  import opened JsBuiltins

  /** The two fixed parts of the template: the instructions before the
      substitution and the answer forms after it. */
  datatype Part = Instructions | AnswerForms

  /** The fixed text of each part, as it stands once the template is trimmed. */
  function PartText(part: Part): string {
    match part
    case Instructions =>
      "Sos un agente de IA "
      + "experto en "
      + "detectar situaciones de riesgo en "
      + "conversaciones.\n"
      + "Tu tarea es analizar los últimos 10 "
      + "mensajes y detectar si hay señales "
      + "de:\n"
      + "\n"
      + "1. Grooming (lenguaje sexual, "
      + "manipulación emocional, pedir fotos,"
      + " hablar de edad).\n"
      + "2. Posible estafa a mayores "
      + "(engaños, pedidos de dinero, "
      + "transferencias, alias, urgencias "
      + "falsas).\n"
      + "3. Ninguna de las anteriores.\n"
      + "\n"
      + "Mensajes:\n"
    case AnswerForms =>
      "\n"
      + "\n"
      + "Respondé sólo una línea con alguna "
      + "de estas opciones:\n"
      + "- DETECCIÓN GROOMING: [explicación "
      + "breve]\n"
      + "- DETECCIÓN ESTAFA: [explicación "
      + "breve]\n"
      + "- SIN RIESGO"
  }

  /** The template literal as written, with `texto` in place of its one
      substitution. It opens with a line break and closes with a line break
      and the two spaces of indentation before the closing backtick. */
  function PromptTemplate(texto: string): string {
    "\n" + (PartText(Instructions) + texto + PartText(AnswerForms)) + "\n  "
  }

  /** `template.trim()`: the prompt used when none is configured. */
  function DefaultSystemPrompt(texto: string): string {
    Trim(PromptTemplate(texto))
  }

  /** The instructions start with a letter. */
  lemma InstructionsStartVisible()
    ensures |PartText(Instructions)| > 0 && PartText(Instructions)[0] == 'S'
  {
  }

  /** The answer forms end with a letter. */
  lemma AnswerFormsEndVisible()
    ensures var a := PartText(AnswerForms); |a| > 0 && a[|a| - 1] == 'O'
  {
  }

  /** Trimming a template whose fixed parts start and end with a letter
      removes exactly the outer line breaks and indentation. */
  lemma TrimTemplate(i: string, t: string, a: string)
    requires |i| > 0 && !IsWhitespace(i[0]) && |a| > 0 && !IsWhitespace(a[|a| - 1])
    ensures Trim("\n" + (i + t + a) + "\n  ") == i + t + a
  {
    var core := i + t + a;
    assert core[0] == i[0];
    assert core[|core| - 1] == a[|a| - 1];
    TrimPadded("\n", core, "\n  ");
  }

  /** Trimming removes exactly the template's outer line breaks and
      indentation, whatever whitespace the window text starts or ends with:
      the window text sits verbatim between the two fixed parts. */
  lemma DefaultSystemPromptEmbedsWindow(texto: string)
    ensures DefaultSystemPrompt(texto) == PartText(Instructions) + texto + PartText(AnswerForms)
  {
    InstructionsStartVisible();
    AnswerFormsEndVisible();
    TrimTemplate(PartText(Instructions), texto, PartText(AnswerForms));
  }
}
