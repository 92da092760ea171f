/** The rule catalog (`_carregar_padroes_completos`, app.py:367-834): for each
    document type, its display name, the marker patterns used to classify it,
    the checklist shown to the user, and its violation rules. It is pure data,
    built once and never changed. The `verificacoes_automaticas` list of the
    lease entry is never read by the engine and is not kept. */
module Catalog {

  datatype Severity = Critical | High | Medium

  /** The catalog keys, in the dict's insertion order, plus the
      `DESCONHECIDO` answer of the classifier. */
  datatype DocType = Lease | Employment | Invoice | Service | Unknown

  /** One violation rule. A rule without a penalty text has the empty string
      (`.get('penalidade', '')`); one without exemplar clauses or keywords has
      empty lists (`.get(..., [])`). */
  datatype Rule = Rule(
    id: string,
    name: string,
    description: string,
    severity: Severity,
    law: string,
    remedy: string,
    penalty: string,
    patterns: seq<string>,
    exemplars: seq<string>,
    keywords: seq<string>)

  datatype TypeConfig = TypeConfig(
    name: string,
    icon: string,
    markers: seq<string>,
    checklist: seq<string>,
    rules: seq<Rule>)

  /** The iteration order of the catalog dict. */
  const CatalogOrder: seq<DocType> := [Lease, Employment, Invoice, Service]

  function Key(t: DocType): string {
    match t
    case Lease => "CONTRATO_LOCACAO"
    case Employment => "CONTRATO_EMPREGO"
    case Invoice => "NOTA_FISCAL"
    case Service => "CONTRATO_PRESTACAO_SERVICOS"
    case Unknown => "DESCONHECIDO"
  }

  /** The `gravidade` strings of the source. */
  function SeverityLabel(s: Severity): string {
    match s
    case Critical => "CRÍTICO"
    case High => "ALTO"
    case Medium => "MÉDIO"
  }

  /** A catalog as the detector holds it (`self.padroes`, loaded once by the
      constructor): one configuration per known type. */
  datatype Table = Table(lease: TypeConfig, employment: TypeConfig, invoice: TypeConfig, service: TypeConfig)

  /** `padroes[t]`. */
  function Entry(tab: Table, t: DocType): TypeConfig
    requires t != Unknown
  {
    if t == Lease then tab.lease
    else if t == Employment then tab.employment
    else if t == Invoice then tab.invoice
    else tab.service
  }

  /** The catalog `_carregar_padroes_completos` builds. */
  const Standard: Table := Table(LeaseConfig, EmploymentConfig, InvoiceConfig, ServiceConfig)

  /** The standard configuration of a known type. */
  function Config(t: DocType): TypeConfig
    requires t != Unknown
  {
    Entry(Standard, t)
  }

  /** `rule` is one of the catalog's rules for type `t`. */
  predicate InCatalog(t: DocType, rule: Rule) {
    t != Unknown && rule in Config(t).rules
  }

  const LeaseConfig: TypeConfig := TypeConfig(
    name := "🏠 Contrato de Locação Residencial",
    icon := "🏠",
    markers := [
      "contrato.*locação.*residencial",
      "locador.*locatário",
      "aluguel.*imóvel",
      "imóvel.*localizado.*em",
      "valor.*mensalidade",
      "prazo.*vigência",
      "cláusula.*primeira",
      "foro.*comarca",
      "fiador.*caução",
      "reajuste.*anual"
    ],
    checklist := [
      "📈 Reajuste vinculado exclusivamente a índices oficiais (IGP-M/IPCA/INCC)",
      "💰 Multa rescisória limitada a 3 meses de aluguel",
      "🔒 Exigência de FIADOR OU caução - nunca ambos",
      "💵 Caução máxima de 3 meses de aluguel",
      "⚖️ Foro na comarca onde está situado o imóvel",
      "📝 Identificação completa das partes (nome, CPF, endereço)",
      "🏗️ Proibição de obras obrigatórias ao locatário",
      "🔄 Ausência de renovação automática tácita",
      "🚫 Proibição de despejo sem processo judicial",
      "📊 Uso apenas de indexadores oficiais do IBGE/FGV",
      "⚡ Prazo mínimo de 30 dias para notificações",
      "🔍 Vistoria conjunta na entrada e saída do imóvel",
      "📅 Comunicação escrita para todas as alterações",
      "🛡️ Responsabilidade do locador por benfeitorias necessárias",
      "🌧️ Responsabilidade por reparos no imóvel",
      "🔐 Sigilo dos dados do locatário",
      "📋 Especificação do uso permitido do imóvel"
    ],
    rules := [
      Rule(
        id := "reajuste_ilegal",
        name := "🚨 REAJUSTE FORA DOS ÍNDICES OFICIAIS",
        description := "Cláusula permite reajuste livre, arbitrário ou não vinculado a índices oficiais do IBGE/FGV",
        severity := Critical,
        law := "Lei 8.245/91 Art. 7º + Código de Defesa do Consumidor",
        remedy := "Exigir que o reajuste seja vinculado EXCLUSIVAMENTE a IGP-M, IPCA ou INCC",
        penalty := "Cláusula nula de pleno direito",
        patterns := [
          "reajuste.*(livre|arbitr[áa]rio|discricion[áa]rio|unilateral)",
          "reajuste.*(independente|fora|sem).*?(índice|indice|IGP|IPCA|INCC|oficial)",
          "reajuste.*definido.*pelo.*locador.*(unilateralmente|arbitrariamente)",
          "atualização.*valor.*acima.*inflação",
          "majoração.*sem.*base.*legal.*objetiva",
          "correção.*monetária.*não.*vinculada.*índice",
          "percentual.*superior.*inflação",
          "revisão.*anual.*(livre|arbitrária)",
          "ajuste.*conforme.*mercado",
          "correção.*monetária.*arbitrária"
        ],
        exemplars := [
          "o valor do aluguel poderá ser reajustado anualmente conforme critério do locador",
          "reajuste anual a critério das partes ou conforme mercado",
          "atualização do aluguel conforme conveniência do locador",
          "majoração do aluguel acima da inflação oficial",
          "o reajuste será feito de forma discricionária pelo locador",
          "correção monetária definida unilateralmente"
        ],
        keywords := [
          "reajuste livre",
          "reajuste arbitrário",
          "reajuste discricionário",
          "correção unilateral"
        ]),
      Rule(
        id := "multa_abusiva",
        name := "💸 MULTA RESCISÓRIA ABUSIVA",
        description := "Multa superior a 3 meses de aluguel - VALOR PROIBIDO POR LEI",
        severity := Critical,
        law := "Lei 8.245/91 Art. 4º + CDC Art. 51, V",
        remedy := "Limitar multa a NO MÁXIMO 3 meses de aluguel",
        penalty := "Redução para 3 meses automaticamente",
        patterns := [
          "multa.*rescis[óo]ria.*(\\d+).*meses.*aluguel",
          "multa.*(superior|acima|maior).*3.*meses",
          "multa.*100%.*aluguel",
          "multa.*integral.*per[íi]odo",
          "indenização.*rescisória.*(\\d+).*meses",
          "penalidade.*equivalente.*(\\d+).*parcelas",
          "pagamento.*(\\d+).*meses.*multa",
          "multa.*(\\d+).*vezes.*aluguel",
          "indenização.*de.*(\\d+).*aluguéis"
        ],
        exemplars := [
          "multa equivalente a 6 meses de aluguel",
          "pagamento de 12 meses de aluguel como multa",
          "indenização de 100% do valor do contrato"
        ],
        keywords := [
          "multa 6 meses",
          "multa 12 meses",
          "multa integral"
        ]),
      Rule(
        id := "garantia_dupla",
        name := "🔐 EXIGÊNCIA DE FIADOR E CAUÇÃO SIMULTÂNEOS",
        description := "Exigência PROIBIDA por lei de fiador E caução ao mesmo tempo",
        severity := Critical,
        law := "Lei 8.245/91 Art. 37",
        remedy := "Escolher entre fiador OU caução - NUNCA ambos",
        penalty := "Nulidade da cláusula abusiva",
        patterns := [
          "(fiador.*caução|caução.*fiador)",
          "garantia.*dupla|dupla.*garantia",
          "exig[êe]ncia.*fiador.*e.*caução",
          "caução.*além.*fiador",
          "fiador.*solidário.*e.*caução",
          "fiador.*caução.*simultaneamente",
          "fiador.*caução.*ambos",
          "exigido.*fiador.*e.*caução"
        ],
        exemplars := [
          "o locatário deverá apresentar fiador e caução",
          "exigência de fiador solidário e depósito caução",
          "garantida dupla: fiador e caução"
        ],
        keywords := [
          "fiador e caução",
          "caução e fiador",
          "garantia dupla"
        ]),
      Rule(
        id := "caução_excessiva",
        name := "💰 CAUÇÃO EXCESSIVA",
        description := "Caução superior a 3 meses de aluguel - LIMITE LEGAL",
        severity := High,
        law := "Lei 8.245/91 Art. 37",
        remedy := "Reduzir caução para no máximo 3 meses de aluguel",
        penalty := "Redução automática para 3 meses",
        patterns := [
          "caução.*(\\d+).*meses.*aluguel",
          "dep[óo]sito.*caução.*(\\d+).*meses",
          "garantia.*(\\d+).*meses.*aluguel",
          "caução.*superior.*3.*meses",
          "dep[óo]sito.*superior.*3.*meses"
        ],
        exemplars := [],
        keywords := []),
      Rule(
        id := "foro_improprio",
        name := "⚖️ FORO IMPRÓPRIO",
        description := "Estipulação de foro em local diferente da comarca do imóvel",
        severity := Critical,
        law := "Lei 8.245/91 Art. 51, II",
        remedy := "Foro DEVE SER na comarca onde está situado o imóvel",
        penalty := "Cláusula nula - foro correto automaticamente",
        patterns := [
          "foro.*(são paulo|rio de janeiro|outra.*cidade|capital)",
          "comarca.*diferente.*imóvel",
          "juízo.*(distante|outro.*município)",
          "processo.*em.*(outra.*cidade)",
          "foro.*da.*comarca.*(?:de|do).*(?!(?:onde|em que).*imóvel)"
        ],
        exemplars := [],
        keywords := []),
      Rule(
        id := "renovacao_automatica",
        name := "🔄 RENOVAÇÃO AUTOMÁTICA ABUSIVA",
        description := "Renovação automática do contrato sem manifestação expressa",
        severity := High,
        law := "Código Civil Art. 445 + CDC Art. 51, IV",
        remedy := "Exigir manifestação EXPRESSA para renovação",
        penalty := "Renovação somente com acordo expresso",
        patterns := [
          "renovação.*automática.*tácita",
          "prorrogação.*automática",
          "contrato.*renovado.*automaticamente",
          "tácita.*renovação",
          "renova.*por.*igual.*período.*automaticamente",
          "prorroga.*automaticamente"
        ],
        exemplars := [],
        keywords := []),
      Rule(
        id := "obras_obrigatorias",
        name := "🏗️ OBRAS OBRIGATÓRIAS AO LOCATÁRIO",
        description := "Obrigação do locatário realizar obras ou benfeitorias no imóvel",
        severity := High,
        law := "Código Civil Art. 1.225",
        remedy := "Remover obrigação de obras do locatário",
        penalty := "Cláusula nula",
        patterns := [
          "locatário.*obrigado.*obras",
          "locatário.*realizar.*benfeitorias",
          "obras.*por.*conta.*locatário",
          "reformas.*obrigatórias.*locatário"
        ],
        exemplars := [],
        keywords := [])
    ])

  const EmploymentConfig: TypeConfig := TypeConfig(
    name := "👔 Contrato de Trabalho CLT",
    icon := "👔",
    markers := [
      "contrato.*(trabalho|emprego)",
      "empregador.*empregado",
      "salário.*base",
      "jornada.*trabalho",
      "férias.*remuneradas",
      "FGTS.*8%",
      "CLT.*consolidação",
      "ctps.*carteira",
      "horas.*extras",
      "adicional.*noturno"
    ],
    checklist := [
      "⏰ Jornada máxima de 8h/dia ou 44h/semana",
      "💰 Salário mínimo de R$ 1.412,00 (2024)",
      "🏦 FGTS 8% obrigatório mensal",
      "🏖️ Férias de 30 dias + 1/3 constitucional",
      "🎁 13º salário integral",
      "🚫 Ausência de renúncia a direitos trabalhistas",
      "📝 Registro na CTPS obrigatório",
      "⏱️ Horas extras 50% (100% domingos/feriados)",
      "🏥 Contribuição ao INSS patronal",
      "🌙 Adicional noturno 20%",
      "🤰 Estabilidade gestante 5 meses",
      "👶 Licença maternidade 180 dias",
      "👨 Licença paternidade 20 dias",
      "📅 Aviso prévio proporcional",
      "⚖️ Equiparação salarial garantida",
      "🏥 Vale-transporte obrigatório",
      "🍽️ Intervalo intrajornada mínimo",
      "📊 Pagamento em dia sem descontos ilegais"
    ],
    rules := [
      Rule(
        id := "salario_minimo",
        name := "💸 SALÁRIO ABAIXO DO MÍNIMO",
        description := "Salário inferior ao mínimo constitucional de R$ 1.412,00 - CRIME",
        severity := Critical,
        law := "Constituição Art. 7º, IV + CLT Art. 76",
        remedy := "Ajustar imediatamente para R$ 1.412,00 ou superior",
        penalty := "Multa de 10x a diferença + processo criminal",
        patterns := [
          "salário.*R?\\$?\\s*([0-9]{1,3}(?:\\.[0-9]{3})*(?:,[0-9]{2})?)",
          "remuneração.*R?\\$?\\s*([0-9]{1,3}(?:\\.[0-9]{3})*(?:,[0-9]{2})?)",
          "vencimento.*R?\\$?\\s*([0-9]{1,3}(?:\\.[0-9]{3})*(?:,[0-9]{2})?)",
          "proventos.*R?\\$?\\s*([0-9]{1,3}(?:\\.[0-9]{3})*(?:,[0-9]{2})?)",
          "valor.*R?\\$?\\s*([0-9]{1,3}(?:\\.[0-9]{3})*(?:,[0-9]{2})?)"
        ],
        exemplars := [],
        keywords := []),
      Rule(
        id := "jornada_excessiva",
        name := "⏰ JORNADA EXCESSIVA",
        description := "Jornada superior aos limites legais: 8h diárias ou 44h semanais",
        severity := Critical,
        law := "CLT Art. 58 + Constituição Art. 7º, XIII",
        remedy := "Reduzir jornada para 8h/dia com horas extras quando exceder",
        penalty := "Pagamento de horas extras retroativas + 50%",
        patterns := [
          "jornada.*(\\d{2}).*horas.*semanais",
          "(\\d{2}):.*(\\d{2}):.*horas.*trabalho",
          "(\\d+).*horas.*di[áa]rias",
          "trabalho.*(\\d+).*horas.*por.*dia",
          "expediente.*(\\d+).*horas",
          "carga.*horária.*(\\d+).*horas",
          "(\\d+).*horas.*semanais"
        ],
        exemplars := [],
        keywords := []),
      Rule(
        id := "fgts_ausente",
        name := "🏦 RENÚNCIA AO FGTS",
        description := "Cláusula que tenta renunciar ao direito ao FGTS - ABSOLUTAMENTE ILEGAL",
        severity := Critical,
        law := "Lei 8.036/1990 Art. 15 + Súmula 450 TST",
        remedy := "Incluir depósito obrigatório de 8% no FGTS",
        penalty := "Nulidade da cláusula + depósito retroativo",
        patterns := [
          "renuncia.*fgts",
          "fgts.*renuncia",
          "não.*haverá.*fgts",
          "sem.*fgts",
          "substituição.*fgts.*vale",
          "aus[êe]ncia.*FGTS.*depósito",
          "opcional.*fgts",
          "fgts.*não.*aplicável"
        ],
        exemplars := [],
        keywords := []),
      Rule(
        id := "demissao_gravidez",
        name := "🚫 DEMISSÃO POR GRAVIDEZ",
        description := "Rescisão automática em caso de gravidez - CRIME DE DISCRIMINAÇÃO",
        severity := Critical,
        law := "CLT Art. 392-A + Lei 9.029/1995 Art. 1º",
        remedy := "Remover imediatamente esta cláusula discriminatória",
        penalty := "Processo criminal + indenização por danos morais",
        patterns := [
          "gravidez.*rescindido",
          "contrato.*automática.*gravidez",
          "gestação.*rescisão",
          "grávida.*demissão",
          "gravidez.*término.*contrato",
          "estado.*gravidez.*extinção",
          "gestante.*dispensa"
        ],
        exemplars := [],
        keywords := []),
      Rule(
        id := "experiencia_excessiva",
        name := "📅 PERÍODO DE EXPERIÊNCIA EXCESSIVO",
        description := "Período de experiência superior a 90 dias - LIMITE LEGAL",
        severity := High,
        law := "CLT Art. 443, \U{A7}2º",
        remedy := "Reduzir período de experiência para máximo 90 dias",
        penalty := "Reconhecimento como efetivo após 90 dias",
        patterns := [
          "experiência.*6.*meses",
          "6.*meses.*experiência",
          "180.*dias.*experiência",
          "prorrogação.*90.*dias",
          "período.*teste.*(\\d+).*meses",
          "experiência.*(\\d+).*meses"
        ],
        exemplars := [],
        keywords := []),
      Rule(
        id := "intervalo_insuficiente",
        name := "⏱️ INTERVALO INTRAJORNADA INSUFICIENTE",
        description := "Intervalo para refeição inferior a 1 hora (6h+ trabalho) ou 15min (4-6h)",
        severity := High,
        law := "CLT Art. 71",
        remedy := "Garantir intervalo mínimo de 1 hora para jornada >6h",
        penalty := "Pagamento como hora extra + 50%",
        patterns := [
          "intervalo.*(\\d+).*minutos",
          "intervalo.*(\\d).*horas",
          "almoço.*(\\d+).*minutos",
          "descanso.*(\\d+).*minutos"
        ],
        exemplars := [],
        keywords := [])
    ])

  const InvoiceConfig: TypeConfig := TypeConfig(
    name := "🧾 Nota Fiscal Eletrônica",
    icon := "🧾",
    markers := [
      "nota.*fiscal.*eletrônica",
      "nfe.*número",
      "chave.*acesso",
      "cnpj.*emitente",
      "valor.*total",
      "icms.*valor",
      "protocolo.*autorização",
      "danfe.*documento",
      "emitente.*destinatário",
      "cfop.*código"
    ],
    checklist := [
      "🔢 Chave de acesso válida (44 dígitos)",
      "🏢 CNPJ regular na Receita Federal",
      "💰 Valores coerentes com operação realizada",
      "📊 Tributação correta (ICMS, IPI, PIS, COFINS)",
      "📅 Data de emissão dentro do prazo legal",
      "✅ Protocolo de autorização válido",
      "🔍 CFOP adequado à operação comercial",
      "📝 Dados completos do destinatário",
      "⚖️ Base de cálculo correta dos impostos",
      "📋 Natureza da operação claramente descrita",
      "🛡️ Inscrição estadual válida do emitente",
      "📈 Valor do frete especificado quando devido",
      "📦 Volumes, peso e espécie declarados",
      "🔐 Assinatura digital válida",
      "🌐 Número de série único e sequencial",
      "💳 Forma de pagamento especificada",
      "📄 Dados do transportador quando aplicável"
    ],
    rules := [
      Rule(
        id := "chave_invalida",
        name := "🔑 CHAVE DE ACESSO INVÁLIDA",
        description := "Chave de acesso da NFE com formato incorreto ou dígitos errados",
        severity := Critical,
        law := "Ajuste SINIEF 07/2005 + Lei 8.846/1994",
        remedy := "Verificar e corrigir chave de acesso de 44 dígitos",
        penalty := "Nota inválida para créditos fiscais",
        patterns := [
          "chave.*acesso.*\\d{44}",
          "nfe.*\\d{44}",
          "[0-9]{44}",
          "chave:.*\\d{44}"
        ],
        exemplars := [],
        keywords := []),
      Rule(
        id := "cnpj_invalido",
        name := "🏢 CNPJ INVÁLIDO",
        description := "CNPJ do emitente ou destinatário com dígitos verificadores incorretos",
        severity := Critical,
        law := "Lei 8.429/1992 + Lei 12.846/2013",
        remedy := "Validar CNPJ com algoritmo oficial da Receita Federal",
        penalty := "Nota fiscal falsa - crime contra a ordem tributária",
        patterns := [
          "cnpj.*\\d{2}\\.\\d{3}\\.\\d{3}/\\d{4}-\\d{2}",
          "\\d{2}\\.\\d{3}\\.\\d{3}/\\d{4}-\\d{2}",
          "CNPJ:.*\\d{2}\\.\\d{3}\\.\\d{3}/\\d{4}-\\d{2}"
        ],
        exemplars := [],
        keywords := []),
      Rule(
        id := "valor_irregular",
        name := "💸 VALORES IRREGULARES",
        description := "Inconsistência nos valores totais, base de cálculo ou impostos",
        severity := High,
        law := "Lei 8.137/1990 + Lei 4.502/1964",
        remedy := "Recalcular todos os valores e impostos",
        penalty := "Multa de 75% a 225% do imposto sonegado",
        patterns := [
          "valor.*total.*\\d+.*\\d+",
          "icms.*valor.*\\d+",
          "base.*cálculo.*\\d+",
          "valor.*produtos.*\\d+",
          "valor.*frete.*\\d+"
        ],
        exemplars := [],
        keywords := []),
      Rule(
        id := "tributacao_errada",
        name := "📊 TRIBUTAÇÃO INCORRETA",
        description := "Alíquotas ou bases de cálculo de impostos incorretas",
        severity := High,
        law := "Lei Complementar 87/1996 (Lei Kandir)",
        remedy := "Aplicar alíquotas corretas conforme estado e produto",
        penalty := "Diferença de imposto + multa",
        patterns := [
          "icms.*(\\d+,\\d+)%",
          "ipi.*(\\d+,\\d+)%",
          "pis.*(\\d+,\\d+)%",
          "cofins.*(\\d+,\\d+)%",
          "alíquota.*(\\d+,\\d+)%"
        ],
        exemplars := [],
        keywords := []),
      Rule(
        id := "data_vencida",
        name := "📅 DATA DE EMISSÃO VENCIDA",
        description := "Nota fiscal emitida fora do prazo legal",
        severity := Medium,
        law := "Lei 8.137/1990",
        remedy := "Emitir nova nota fiscal dentro do prazo",
        penalty := "Multa por atraso na emissão",
        patterns := [
          "data.*emissão.*\\d{2}/\\d{2}/\\d{4}",
          "emissão:.*\\d{2}/\\d{2}/\\d{4}"
        ],
        exemplars := [],
        keywords := [])
    ])

  const ServiceConfig: TypeConfig := TypeConfig(
    name := "💼 Contrato de Prestação de Serviços",
    icon := "💼",
    markers := [
      "contrato.*prestação.*serviços",
      "contratante.*contratado",
      "honorários.*serviços",
      "escopo.*serviço",
      "prazo.*execução",
      "forma.*pagamento"
    ],
    checklist := [
      "⚖️ Ausência de vínculo empregatício dissimulado",
      "📊 Remuneração compatível com o mercado",
      "📝 Especificação clara dos serviços",
      "⏰ Ausência de subordinação e horário fixo",
      "💰 Pagamento por resultado/projeto",
      "📅 Prazo de execução definido",
      "🛡️ Responsabilidades bem delimitadas",
      "📋 Termos de rescisão claros",
      "🔒 Confidencialidade quando aplicável",
      "⚖️ Foro adequado para disputas"
    ],
    rules := [
      Rule(
        id := "vinculo_dissimulado",
        name := "⚖️ VÍNCULO EMPREGATÍCIO DISSIMULADO",
        description := "Contrato de prestação que esconde relação de emprego (horário fixo, subordinação)",
        severity := Critical,
        law := "CLT Art. 3º + Súmula 331 TST",
        remedy := "Regularizar vínculo empregatício ou remover elementos de subordinação",
        penalty := "",
        patterns := [
          "horário.*fixo.*(\\d{2}):.*[àa].*(\\d{2}):",
          "expediente.*fixo",
          "subordinação.*hierárquica",
          "cumprir.*horário",
          "exclusividade.*sem.*vínculo",
          "supervisionado.*por"
        ],
        exemplars := [],
        keywords := [])
    ])
}
